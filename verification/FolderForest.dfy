/** Connection folders and profiles (packages/storage/src/index.ts).

    Folders point at their parents by id, profiles at their folder. A profile also
    carries the name of its folder as its group. Nothing stops a pointer from
    naming a folder that does not exist. */
module FolderForest {
  import opened Wrappers

  type Id = string

  datatype Folder = Folder(id: Id, name: string, parentId: Option<Id>, order: Option<int>)

  /** `content` stands for the fields that only the profile form changes. */
  datatype Profile = Profile(id: Id, content: string, groupName: string, parentId: Option<Id>, order: Option<int>)

  datatype Updates = Updates(id: Option<Id>, name: Option<string>, parentId: Option<Option<Id>>, order: Option<int>)

  const DEFAULT_GROUP: string := "\U{9ED8}\U{8BA4}"

  function FindFolder(folders: seq<Folder>, id: Id): (k: nat)
    ensures k <= |folders|
    ensures k < |folders| ==> folders[k].id == id
    ensures forall m :: 0 <= m < k ==> folders[m].id != id
  {
    if folders == [] then 0 else if folders[0].id == id then 0 else 1 + FindFolder(folders[1..], id)
  }

  function FindNamed(folders: seq<Folder>, name: string): (k: nat)
    ensures k <= |folders|
    ensures k < |folders| ==> folders[k].name == name
  {
    if folders == [] then 0 else if folders[0].name == name then 0 else 1 + FindNamed(folders[1..], name)
  }

  function FindProfile(profiles: seq<Profile>, id: Id): (k: nat)
    ensures k <= |profiles|
    ensures k < |profiles| ==> profiles[k].id == id
  {
    if profiles == [] then 0 else if profiles[0].id == id then 0 else 1 + FindProfile(profiles[1..], id)
  }

  predicate HasFolder(folders: seq<Folder>, id: Id) {
    FindFolder(folders, id) < |folders|
  }

  function ParentOf(folders: seq<Folder>, id: Id): Option<Id> {
    var k := FindFolder(folders, id);
    if k < |folders| then folders[k].parentId else None
  }

  /** Folder ids are unique and not empty. */
  predicate UniqueFolders(folders: seq<Folder>) {
    && (forall i, j :: 0 <= i < j < |folders| ==> folders[i].id != folders[j].id)
    && (forall i :: 0 <= i < |folders| ==> folders[i].id != "")
  }

  // ----- the operations

  /** The name a profile takes over from its new parent; an empty id counts as none. */
  function GroupFor(folders: seq<Folder>, parentId: Option<Id>): string {
    if parentId.None? || parentId.value == "" then DEFAULT_GROUP
    else
      var k := FindFolder(folders, parentId.value);
      if k < |folders| then folders[k].name else DEFAULT_GROUP
  }

  function WithoutFolder(folders: seq<Folder>, id: Id): seq<Folder> {
    if folders == [] then []
    else (if folders[0].id == id then [] else [folders[0]]) + WithoutFolder(folders[1..], id)
  }

  /** Pointers at `id` are replaced. */
  function Reparent(folders: seq<Folder>, id: Id, parentId: Option<Id>): (next: seq<Folder>)
    ensures |next| == |folders|
    ensures forall k :: 0 <= k < |folders| ==>
              next[k] == if folders[k].parentId == Some(id) then folders[k].(parentId := parentId) else folders[k]
  {
    seq(|folders|, k requires 0 <= k < |folders| =>
      if folders[k].parentId == Some(id) then folders[k].(parentId := parentId) else folders[k])
  }

  function Regroup(profiles: seq<Profile>, id: Id, parentId: Option<Id>, groupName: string): (next: seq<Profile>)
    ensures |next| == |profiles|
    ensures forall k :: 0 <= k < |profiles| ==>
              next[k] == if profiles[k].parentId == Some(id)
                         then profiles[k].(parentId := parentId, groupName := groupName) else profiles[k]
  {
    seq(|profiles|, k requires 0 <= k < |profiles| =>
      if profiles[k].parentId == Some(id)
      then profiles[k].(parentId := parentId, groupName := groupName) else profiles[k])
  }

  function Replace(profiles: seq<Profile>, id: Id, profile: Profile): (next: seq<Profile>)
    ensures |next| == |profiles|
    ensures forall k :: 0 <= k < |profiles| ==> next[k] == if profiles[k].id == id then profile else profiles[k]
  {
    seq(|profiles|, k requires 0 <= k < |profiles| => if profiles[k].id == id then profile else profiles[k])
  }

  /** The folder list after the parent folder `id` is taken out. */
  function Contracted(folders: seq<Folder>, id: Id): seq<Folder> {
    Reparent(WithoutFolder(folders, id), id, ParentOf(folders, id))
  }

  function Updated(folder: Folder, u: Updates): Folder {
    Folder(if u.id.Some? then u.id.value else folder.id,
           if u.name.Some? then u.name.value else folder.name,
           if u.parentId.Some? then u.parentId.value else folder.parentId,
           if u.order.Some? then u.order else folder.order)
  }

  datatype Repository = Repository(profiles: seq<Profile>, folders: seq<Folder>)

  function FolderNamed(folders: seq<Folder>, name: string): Option<Id> {
    var k := FindNamed(folders, name);
    if k < |folders| then Some(folders[k].id) else None
  }

  function Create(r: Repository, id: Id, content: string, groupName: string): Repository {
    r.(profiles := [Profile(id, content, groupName, FolderNamed(r.folders, groupName), None)] + r.profiles)
  }

  function Update(r: Repository, id: Id, content: string, groupName: string): Option<Repository> {
    var k := FindProfile(r.profiles, id);
    if k == |r.profiles| then None
    else
      var profile := Profile(id, content, groupName, FolderNamed(r.folders, groupName), r.profiles[k].order);
      Some(r.(profiles := Replace(r.profiles, id, profile)))
  }

  function CreateFolder(r: Repository, id: Id, name: string, parentId: Option<Id>): Repository {
    r.(folders := r.folders + [Folder(id, name, parentId, None)])
  }

  function UpdateFolder(r: Repository, id: Id, u: Updates): Option<Repository> {
    var k := FindFolder(r.folders, id);
    if k == |r.folders| then None
    else
      var folders := r.folders[k := Updated(r.folders[k], u)];
      if u.name.Some?
      then Some(Repository(Regroup(r.profiles, id, Some(id), u.name.value), folders))
      else Some(r.(folders := folders))
  }

  function DeleteFolder(r: Repository, id: Id): Repository {
    if FindFolder(r.folders, id) == |r.folders| then r
    else
      var parentId := ParentOf(r.folders, id);
      Repository(Regroup(r.profiles, id, parentId, GroupFor(WithoutFolder(r.folders, id), parentId)),
                 Contracted(r.folders, id))
  }

  function Move(r: Repository, id: Id, parentId: Option<Id>, order: int): Repository {
    var p := FindProfile(r.profiles, id);
    var k := FindFolder(r.folders, id);
    if p < |r.profiles| then
      r.(profiles := r.profiles[p := r.profiles[p].(parentId := parentId, order := Some(order),
                                                     groupName := GroupFor(r.folders, parentId))])
    else if k < |r.folders| then
      r.(folders := r.folders[k := r.folders[k].(parentId := parentId, order := Some(order))])
    else r
  }

  /** The repository object: its arrays are replaced or written in place. */
  class MemoryProfileRepository {
    var profiles: seq<Profile>
    var folders: seq<Folder>

    function Value(): Repository
      reads this
    {
      Repository(profiles, folders)
    }

    constructor (seed: seq<Profile>)
      ensures Value() == Repository(seed, [])
    {
      profiles, folders := seed, [];
    }

    method AddProfile(id: Id, content: string, groupName: string)
      modifies `profiles
      ensures Value() == Create(old(Value()), id, content, groupName)
    {
      profiles := [Profile(id, content, groupName, FolderNamed(folders, groupName), None)] + profiles;
    }

    method ChangeProfile(id: Id, content: string, groupName: string) returns (found: bool)
      modifies `profiles
      ensures found <==> Update(old(Value()), id, content, groupName).Some?
      ensures Value() == if found then Update(old(Value()), id, content, groupName).value else old(Value())
    {
      var k := FindProfile(profiles, id);
      if k == |profiles| {
        return false;
      }
      var profile := Profile(id, content, groupName, FolderNamed(folders, groupName), profiles[k].order);
      profiles := Replace(profiles, id, profile);
      return true;
    }

    method AddFolder(id: Id, name: string, parentId: Option<Id>)
      modifies `folders
      ensures Value() == CreateFolder(old(Value()), id, name, parentId)
    {
      folders := folders + [Folder(id, name, parentId, None)];
    }

    method ChangeFolder(id: Id, u: Updates) returns (found: bool)
      modifies this
      ensures found <==> UpdateFolder(old(Value()), id, u).Some?
      ensures Value() == if found then UpdateFolder(old(Value()), id, u).value else old(Value())
    {
      var k := FindFolder(folders, id);
      if k == |folders| {
        return false;
      }
      folders := folders[k := Updated(folders[k], u)];
      if u.name.Some? {
        profiles := Regroup(profiles, id, Some(id), u.name.value);
      }
      return true;
    }

    /** Deleting a folder takes it out of every chain of ancestors, the profiles'
        included, and every profile stays in the group of its folder. */
    method RemoveFolder(id: Id)
      modifies this
      ensures Value() == DeleteFolder(old(Value()), id)
      ensures !HasFolder(folders, id)
      ensures HasFolder(old(folders), id) ==> ChainsContract(old(folders), folders, id)
      ensures HasFolder(old(folders), id) ==> ProfilesContract(old(Value()), Value(), id)
      ensures GroupsMatch(old(Value())) ==> GroupsMatch(Value())
      ensures Acyclic(old(folders)) ==> Acyclic(folders)
    {
      RemovalEffect(Value(), id);
      var k := FindFolder(folders, id);
      if k == |folders| {
        return;
      }
      var parentId := folders[k].parentId;
      var remaining := WithoutFolder(folders, id);
      profiles := Regroup(profiles, id, parentId, GroupFor(remaining, parentId));
      folders := Reparent(remaining, id, parentId);
    }

    /** Moving a profile or a folder keeps every profile in the group of its folder
        and every other entry; a profile of that id is moved before a folder of it.
        The folders stay free of cycles exactly when no folder goes under itself or
        one of its descendants. */
    method ChangeOrder(id: Id, parentId: Option<Id>, order: int)
      modifies this
      ensures Value() == Move(old(Value()), id, parentId, order)
      ensures GroupsMatch(old(Value())) ==> GroupsMatch(Value())
      ensures OthersStay(old(Value()), Value(), id)
      ensures FindProfile(old(profiles), id) < |old(profiles)| ==> folders == old(folders)
      ensures FindProfile(old(profiles), id) == |old(profiles)| && HasFolder(old(folders), id) && Acyclic(old(folders)) ==>
                CyclesIff(old(folders), folders, id, parentId)
    {
      MoveEffect(Value(), id, parentId, order);
      var p := FindProfile(profiles, id);
      if p < |profiles| {
        profiles := profiles[p := profiles[p].(parentId := parentId, order := Some(order),
                                               groupName := GroupFor(folders, parentId))];
        return;
      }
      var k := FindFolder(folders, id);
      if k < |folders| {
        folders := folders[k := folders[k].(parentId := parentId, order := Some(order))];
      }
    }
  }

  // ----- ancestor chains

  /** `chain` lists the folders met when following parents from `start` to the end. */
  predicate IsChain(folders: seq<Folder>, start: Option<Id>, chain: seq<Id>)
    decreases chain
  {
    if start.None? || !HasFolder(folders, start.value) then chain == []
    else chain != [] && chain[0] == start.value && IsChain(folders, ParentOf(folders, start.value), chain[1..])
  }

  /** Following parents ends from every folder. */
  ghost predicate Acyclic(folders: seq<Folder>) {
    forall id :: HasFolder(folders, id) ==> exists chain :: IsChain(folders, Some(id), chain)
  }

  lemma {:induction false} ChainIsUnique(folders: seq<Folder>, start: Option<Id>, a: seq<Id>, b: seq<Id>)
    requires IsChain(folders, start, a) && IsChain(folders, start, b)
    ensures a == b
    decreases a
  {
    if a != [] {
      ChainIsUnique(folders, ParentOf(folders, start.value), a[1..], b[1..]);
      assert a == [a[0]] + a[1..] && b == [b[0]] + b[1..];
    }
  }

  lemma {:induction false} ChainFrom(folders: seq<Folder>, start: Option<Id>, chain: seq<Id>, k: nat)
    requires IsChain(folders, start, chain) && k < |chain|
    ensures IsChain(folders, Some(chain[k]), chain[k..]) && HasFolder(folders, chain[k])
    decreases chain
  {
    if k > 0 {
      ChainFrom(folders, ParentOf(folders, start.value), chain[1..], k - 1);
      assert chain[1..][k - 1..] == chain[k..];
    }
  }

  /** A folder is not among its own ancestors. */
  lemma NotItsOwnAncestor(folders: seq<Folder>, id: Id, rest: seq<Id>)
    requires HasFolder(folders, id) && IsChain(folders, ParentOf(folders, id), rest)
    ensures id !in rest
  {
    if id in rest {
      var k :| 0 <= k < |rest| && rest[k] == id;
      ChainFrom(folders, ParentOf(folders, id), rest, k);
      assert ([id] + rest)[1..] == rest;
      ChainIsUnique(folders, Some(id), rest[k..], [id] + rest);
    }
  }

  // ----- deleting a folder contracts it

  function Removed(chain: seq<Id>, id: Id): seq<Id> {
    if chain == [] then [] else (if chain[0] == id then [] else [chain[0]]) + Removed(chain[1..], id)
  }

  lemma {:induction false} RemovedAbsent(chain: seq<Id>, id: Id)
    requires id !in chain
    ensures Removed(chain, id) == chain
  {
    if chain != [] {
      RemovedAbsent(chain[1..], id);
    }
  }

  lemma FindInCons(folder: Folder, rest: seq<Folder>, id: Id)
    ensures HasFolder([folder] + rest, id) <==> folder.id == id || HasFolder(rest, id)
    ensures ParentOf([folder] + rest, id) == if folder.id == id then folder.parentId else ParentOf(rest, id)
  {
  }

  lemma {:induction false} WithoutFinds(folders: seq<Folder>, id: Id, other: Id)
    ensures HasFolder(WithoutFolder(folders, id), other) <==> HasFolder(folders, other) && other != id
    ensures other != id ==> ParentOf(WithoutFolder(folders, id), other) == ParentOf(folders, other)
  {
    if folders != [] {
      WithoutFinds(folders[1..], id, other);
      assert folders == [folders[0]] + folders[1..];
      FindInCons(folders[0], folders[1..], other);
      if folders[0].id == id {
        assert [] + WithoutFolder(folders[1..], id) == WithoutFolder(folders[1..], id);
      } else {
        FindInCons(folders[0], WithoutFolder(folders[1..], id), other);
      }
    }
  }

  lemma {:induction false} ReparentFinds(folders: seq<Folder>, id: Id, parentId: Option<Id>, other: Id)
    ensures HasFolder(Reparent(folders, id, parentId), other) <==> HasFolder(folders, other)
    ensures ParentOf(Reparent(folders, id, parentId), other)
            == if ParentOf(folders, other) == Some(id) then parentId else ParentOf(folders, other)
  {
  }

  lemma {:induction false} SameIdsFind(folders: seq<Folder>, next: seq<Folder>, id: Id)
    requires |folders| == |next| && forall k :: 0 <= k < |folders| ==> next[k].id == folders[k].id
    ensures FindFolder(next, id) == FindFolder(folders, id)
  {
  }

  /** Where a pointer leads after folder `id` is taken out. */
  function Redirected(folders: seq<Folder>, id: Id, start: Option<Id>): Option<Id> {
    if start == Some(id) then ParentOf(folders, id) else start
  }

  lemma ContractedFinds(folders: seq<Folder>, id: Id, other: Id)
    ensures HasFolder(Contracted(folders, id), other) <==> HasFolder(folders, other) && other != id
    ensures other != id ==> ParentOf(Contracted(folders, id), other) == Redirected(folders, id, ParentOf(folders, other))
  {
    WithoutFinds(folders, id, other);
    ReparentFinds(WithoutFolder(folders, id), id, ParentOf(folders, id), other);
  }

  /** Deleting a folder takes it out of every chain and changes no other: what
      pointed at it starts at its parent, and the rest of the chain is as before. */
  lemma {:induction false} DeletingContractsChains(folders: seq<Folder>, id: Id, start: Option<Id>, chain: seq<Id>)
    requires HasFolder(folders, id) && IsChain(folders, start, chain)
    ensures IsChain(Contracted(folders, id), Redirected(folders, id, start), Removed(chain, id))
    decreases chain
  {
    if chain == [] {
      if start.Some? {
        ContractedFinds(folders, id, start.value);
      }
    } else {
      var rest, parentId := chain[1..], ParentOf(folders, chain[0]);
      DeletingContractsChains(folders, id, parentId, rest);
      NotItsOwnAncestor(folders, chain[0], rest);
      if chain[0] == id {
        RemovedAbsent(rest, id);
        assert [] + Removed(rest, id) == rest;
        ParentIsElsewhere(folders, id, rest);
      } else {
        ContractedFinds(folders, id, chain[0]);
        assert ([chain[0]] + Removed(rest, id))[1..] == Removed(rest, id);
      }
    }
  }

  lemma ParentIsElsewhere(folders: seq<Folder>, id: Id, rest: seq<Id>)
    requires HasFolder(folders, id) && IsChain(folders, ParentOf(folders, id), rest)
    ensures ParentOf(folders, id) != Some(id)
  {
  }

  lemma DeletingKeepsAcyclic(folders: seq<Folder>, id: Id)
    requires Acyclic(folders) && HasFolder(folders, id)
    ensures Acyclic(Contracted(folders, id))
  {
    var next := Contracted(folders, id);
    forall other | HasFolder(next, other) ensures exists chain :: IsChain(next, Some(other), chain) {
      ContractedFinds(folders, id, other);
      var chain :| IsChain(folders, Some(other), chain);
      DeletingContractsChains(folders, id, Some(other), chain);
    }
  }

  // ----- moving a folder

  /** The folder list with the parent of `id` replaced. */
  ghost predicate IsMoved(folders: seq<Folder>, next: seq<Folder>, id: Id, parentId: Option<Id>) {
    && HasFolder(folders, id)
    && forall other ::
         && (HasFolder(next, other) <==> HasFolder(folders, other))
         && ParentOf(next, other) == if other == id then parentId else ParentOf(folders, other)
  }

  lemma {:induction false} ChainAvoidingTheMove(
      folders: seq<Folder>, next: seq<Folder>, id: Id, parentId: Option<Id>, start: Option<Id>, chain: seq<Id>)
    requires IsMoved(folders, next, id, parentId) && IsChain(folders, start, chain) && id !in chain
    ensures IsChain(next, start, chain)
    decreases chain
  {
    if chain != [] {
      ChainAvoidingTheMove(folders, next, id, parentId, ParentOf(folders, start.value), chain[1..]);
    }
  }

  lemma {:induction false} ChainThroughTheMove(
      folders: seq<Folder>, next: seq<Folder>, id: Id, parentId: Option<Id>, above: seq<Id>, start: Option<Id>, chain: seq<Id>)
    returns (moved: seq<Id>)
    requires IsMoved(folders, next, id, parentId) && IsChain(folders, parentId, above) && id !in above
    requires IsChain(folders, start, chain)
    ensures IsChain(next, start, moved)
    decreases chain
  {
    if chain == [] {
      moved := [];
    } else if chain[0] == id {
      ChainAvoidingTheMove(folders, next, id, parentId, parentId, above);
      moved := [id] + above;
      assert moved[1..] == above;
    } else {
      var rest := ChainThroughTheMove(folders, next, id, parentId, above, ParentOf(folders, start.value), chain[1..]);
      moved := [chain[0]] + rest;
      assert moved[1..] == rest;
    }
  }

  lemma {:induction false} StillReaches(
      folders: seq<Folder>, next: seq<Folder>, id: Id, parentId: Option<Id>, start: Option<Id>, chain: seq<Id>, moved: seq<Id>)
    requires IsMoved(folders, next, id, parentId)
    requires IsChain(folders, start, chain) && id in chain && IsChain(next, start, moved)
    ensures id in moved
    decreases chain
  {
    if chain[0] != id {
      assert id in chain[1..];
      StillReaches(folders, next, id, parentId, ParentOf(folders, start.value), chain[1..], moved[1..]);
    }
  }

  /** Moving a folder keeps the forest free of cycles exactly when the folder is
      not the new parent or one of its ancestors. */
  lemma MovingKeepsAcyclicIff(folders: seq<Folder>, next: seq<Folder>, id: Id, parentId: Option<Id>, above: seq<Id>)
    requires Acyclic(folders) && IsMoved(folders, next, id, parentId) && IsChain(folders, parentId, above)
    ensures Acyclic(next) <==> id !in above
  {
    if id !in above {
      forall other | HasFolder(next, other) ensures exists chain :: IsChain(next, Some(other), chain) {
        var chain :| IsChain(folders, Some(other), chain);
        var moved := ChainThroughTheMove(folders, next, id, parentId, above, Some(other), chain);
      }
    } else if Acyclic(next) {
      var moved :| IsChain(next, parentId, moved);
      StillReaches(folders, next, id, parentId, parentId, above, moved);
      assert ParentOf(next, id) == parentId && HasFolder(next, id);
      NotItsOwnAncestor(next, id, moved);
    }
  }

  lemma AcyclicGivesChains(folders: seq<Folder>, start: Option<Id>) returns (chain: seq<Id>)
    requires Acyclic(folders)
    ensures IsChain(folders, start, chain)
  {
    if start.Some? && HasFolder(folders, start.value) {
      chain :| IsChain(folders, start, chain);
    } else {
      chain := [];
    }
  }

  lemma MoveIsMoved(r: Repository, id: Id, parentId: Option<Id>, order: int)
    requires FindProfile(r.profiles, id) == |r.profiles| && HasFolder(r.folders, id)
    ensures IsMoved(r.folders, Move(r, id, parentId, order).folders, id, parentId)
  {
    var next := Move(r, id, parentId, order).folders;
    forall other
      ensures HasFolder(next, other) <==> HasFolder(r.folders, other)
      ensures ParentOf(next, other) == if other == id then parentId else ParentOf(r.folders, other)
    {
      SameIdsFind(r.folders, next, other);
    }
  }

  /** The same for the command that moves a folder. */
  lemma FolderMoveKeepsAcyclicIff(r: Repository, id: Id, parentId: Option<Id>, order: int, above: seq<Id>)
    requires Acyclic(r.folders) && FindProfile(r.profiles, id) == |r.profiles| && HasFolder(r.folders, id)
    requires IsChain(r.folders, parentId, above)
    ensures Acyclic(Move(r, id, parentId, order).folders) <==> id !in above
  {
    MoveIsMoved(r, id, parentId, order);
    MovingKeepsAcyclicIff(r.folders, Move(r, id, parentId, order).folders, id, parentId, above);
  }

  /** After a delete every profile and every remaining folder has its old chain of
      ancestors without the deleted folder. */
  lemma DeleteFolderContractsProfiles(r: Repository, id: Id, k: nat, chain: seq<Id>)
    requires HasFolder(r.folders, id) && k < |r.profiles| && IsChain(r.folders, r.profiles[k].parentId, chain)
    ensures var next := DeleteFolder(r, id);
            && |next.profiles| == |r.profiles| && next.profiles[k].id == r.profiles[k].id
            && IsChain(next.folders, next.profiles[k].parentId, Removed(chain, id))
  {
    DeletingContractsChains(r.folders, id, r.profiles[k].parentId, chain);
  }

  lemma DeleteFolderContractsFolders(r: Repository, id: Id, other: Id, above: seq<Id>)
    requires HasFolder(r.folders, id) && HasFolder(r.folders, other) && other != id
    requires IsChain(r.folders, ParentOf(r.folders, other), above)
    ensures var next := DeleteFolder(r, id).folders;
            && HasFolder(next, other) && !HasFolder(next, id)
            && IsChain(next, ParentOf(next, other), Removed(above, id))
  {
    ContractedFinds(r.folders, id, other);
    ContractedFinds(r.folders, id, id);
    DeletingContractsChains(r.folders, id, ParentOf(r.folders, other), above);
  }

  // ----- a profile's group is the name of its folder

  function NameOf(folders: seq<Folder>, id: Id): string {
    var k := FindFolder(folders, id);
    if k < |folders| then folders[k].name else ""
  }

  predicate InItsGroup(folders: seq<Folder>, p: Profile) {
    p.parentId.Some? && HasFolder(folders, p.parentId.value) ==> p.groupName == NameOf(folders, p.parentId.value)
  }

  predicate GroupsMatch(r: Repository) {
    && UniqueFolders(r.folders)
    && forall k :: 0 <= k < |r.profiles| ==> InItsGroup(r.folders, r.profiles[k])
  }

  lemma FindUnique(folders: seq<Folder>, k: nat)
    requires UniqueFolders(folders) && k < |folders|
    ensures FindFolder(folders, folders[k].id) == k
  {
  }

  lemma NamedFolderMatches(folders: seq<Folder>, content: string, id: Id, name: string, order: Option<int>)
    requires UniqueFolders(folders)
    ensures InItsGroup(folders, Profile(id, content, name, FolderNamed(folders, name), order))
  {
  }

  lemma CreateKeepsGroups(r: Repository, id: Id, content: string, groupName: string)
    requires GroupsMatch(r)
    ensures GroupsMatch(Create(r, id, content, groupName))
  {
  }

  lemma UpdateKeepsGroups(r: Repository, id: Id, content: string, groupName: string)
    requires GroupsMatch(r) && Update(r, id, content, groupName).Some?
    ensures GroupsMatch(Update(r, id, content, groupName).value)
  {
    NamedFolderMatches(r.folders, content, id, groupName, r.profiles[FindProfile(r.profiles, id)].order);
  }

  /** A new folder gets an id that nothing points at. */
  predicate IsNew(r: Repository, id: Id) {
    && id != "" && !HasFolder(r.folders, id)
    && (forall k :: 0 <= k < |r.profiles| ==> r.profiles[k].parentId != Some(id))
    && (forall k :: 0 <= k < |r.folders| ==> r.folders[k].parentId != Some(id))
  }

  lemma {:induction false} FindAfterPush(folders: seq<Folder>, folder: Folder, id: Id)
    ensures FindFolder(folders + [folder], id)
            == if HasFolder(folders, id) then FindFolder(folders, id)
               else if folder.id == id then |folders| else |folders| + 1
  {
    if folders != [] && folders[0].id != id {
      FindAfterPush(folders[1..], folder, id);
      assert (folders + [folder])[1..] == folders[1..] + [folder];
    }
  }

  lemma CreateFolderKeepsGroups(r: Repository, id: Id, name: string, parentId: Option<Id>)
    requires GroupsMatch(r) && IsNew(r, id)
    ensures GroupsMatch(CreateFolder(r, id, name, parentId))
  {
  }

  lemma CreateFolderKeepsAcyclic(r: Repository, id: Id, name: string, parentId: Option<Id>)
    requires Acyclic(r.folders) && IsNew(r, id) && parentId != Some(id)
    ensures Acyclic(CreateFolder(r, id, name, parentId).folders)
  {
    var folder := Folder(id, name, parentId, None);
    var next := r.folders + [folder];
    forall other | HasFolder(next, other) ensures exists chain :: IsChain(next, Some(other), chain) {
      FindAfterPush(r.folders, folder, other);
      if other == id {
        var above := AcyclicGivesChains(r.folders, parentId);
        ChainAfterPush(r, folder, parentId, above);
        assert ([id] + above)[1..] == above;
        assert IsChain(next, Some(id), [id] + above);
      } else {
        var chain :| IsChain(r.folders, Some(other), chain);
        ChainAfterPush(r, folder, Some(other), chain);
      }
    }
  }

  lemma {:induction false} ChainAfterPush(r: Repository, folder: Folder, start: Option<Id>, chain: seq<Id>)
    requires IsNew(r, folder.id) && start != Some(folder.id) && IsChain(r.folders, start, chain)
    ensures IsChain(r.folders + [folder], start, chain)
    decreases chain
  {
    if start.Some? {
      FindAfterPush(r.folders, folder, start.value);
      if chain != [] {
        var k := FindFolder(r.folders, start.value);
        assert r.folders[k].parentId != Some(folder.id);
        ChainAfterPush(r, folder, ParentOf(r.folders, start.value), chain[1..]);
      }
    }
  }

  /** What an update of folder `id` that gives it the id `to` does to a profile. */
  lemma {:induction false} FindAfterUpdate(folders: seq<Folder>, k: nat, u: Updates, id: Id)
    requires UniqueFolders(folders) && k < |folders| && UniqueFolders(folders[k := Updated(folders[k], u)])
    ensures var to := if u.id.Some? then u.id.value else folders[k].id;
            var next := folders[k := Updated(folders[k], u)];
            && (HasFolder(next, id) <==> id == to || (HasFolder(folders, id) && id != folders[k].id))
            && (id == to ==> NameOf(next, id) == Updated(folders[k], u).name)
            && (id != to && id != folders[k].id ==> NameOf(next, id) == NameOf(folders, id))
  {
    var to := if u.id.Some? then u.id.value else folders[k].id;
    var next := folders[k := Updated(folders[k], u)];
    if id == to {
      FindUnique(next, k);
    } else if HasFolder(folders, id) && id != folders[k].id {
      var m := FindFolder(folders, id);
      assert next[m] == folders[m];
      FindUnique(next, m);
    }
    if id != to && HasFolder(next, id) {
      FindUpdatedBack(folders, k, u, id);
    }
  }

  lemma FindUpdatedBack(folders: seq<Folder>, k: nat, u: Updates, id: Id)
    requires UniqueFolders(folders) && k < |folders|
    requires HasFolder(folders[k := Updated(folders[k], u)], id) && Updated(folders[k], u).id != id
    ensures HasFolder(folders, id) && id != folders[k].id
  {
  }

  /** An update of a folder keeps the groups, except that one which changes the
      folder's id does so exactly when the profiles that already point at the new
      id carry the folder's name. */
  lemma UpdateFolderKeepsGroupsIff(r: Repository, id: Id, u: Updates)
    requires GroupsMatch(r) && HasFolder(r.folders, id)
    requires u.id.Some? && u.id.value != id ==> u.id.value != "" && !HasFolder(r.folders, u.id.value)
    ensures UpdateFolder(r, id, u).Some?
    ensures u.id.None? || u.id.value == id ==> GroupsMatch(UpdateFolder(r, id, u).value)
    ensures u.id.Some? && u.id.value != id ==>
              (GroupsMatch(UpdateFolder(r, id, u).value)
               <==> forall p :: 0 <= p < |r.profiles| && r.profiles[p].parentId == u.id ==>
                      r.profiles[p].groupName == Updated(r.folders[FindFolder(r.folders, id)], u).name)
  {
    var k := FindFolder(r.folders, id);
    var next := UpdateFolder(r, id, u).value;
    UpdatedFoldersAreUnique(r.folders, k, u);
    forall p | 0 <= p < |r.profiles|
      ensures r.profiles[p].parentId != u.id || u.id == Some(id) || u.id.None? ==> InItsGroup(next.folders, next.profiles[p])
      ensures r.profiles[p].parentId == u.id && u.id != Some(id) && u.id.Some? ==>
                (InItsGroup(next.folders, next.profiles[p])
                 <==> r.profiles[p].groupName == Updated(r.folders[k], u).name)
    {
      assert InItsGroup(r.folders, r.profiles[p]);
      if r.profiles[p].parentId.Some? {
        FindAfterUpdate(r.folders, k, u, r.profiles[p].parentId.value);
      }
    }
  }

  lemma UpdatedFoldersAreUnique(folders: seq<Folder>, k: nat, u: Updates)
    requires UniqueFolders(folders) && k < |folders|
    requires u.id.Some? && u.id.value != folders[k].id ==> u.id.value != "" && !HasFolder(folders, u.id.value)
    ensures UniqueFolders(folders[k := Updated(folders[k], u)])
  {
  }

  lemma {:induction false} WithoutIsUnique(folders: seq<Folder>, id: Id)
    requires UniqueFolders(folders)
    ensures UniqueFolders(WithoutFolder(folders, id))
    ensures forall k :: 0 <= k < |WithoutFolder(folders, id)| ==> HasId(folders, WithoutFolder(folders, id)[k].id)
  {
    if folders != [] {
      var rest := folders[1..];
      WithoutIsUnique(rest, id);
      forall x | HasId(rest, x) ensures HasId(folders, x) && x != folders[0].id {
        var k :| 0 <= k < |rest| && rest[k].id == x;
        assert folders[k + 1].id == x;
      }
      assert HasId(folders, folders[0].id);
    }
  }

  predicate HasId(folders: seq<Folder>, id: Id) {
    exists k :: 0 <= k < |folders| && folders[k].id == id
  }

  lemma NameInCons(folder: Folder, rest: seq<Folder>, id: Id)
    ensures NameOf([folder] + rest, id) == if folder.id == id then folder.name else NameOf(rest, id)
  {
  }

  lemma {:induction false} WithoutNames(folders: seq<Folder>, id: Id, other: Id)
    requires other != id
    ensures NameOf(WithoutFolder(folders, id), other) == NameOf(folders, other)
  {
    if folders != [] {
      WithoutNames(folders[1..], id, other);
      assert folders == [folders[0]] + folders[1..];
      NameInCons(folders[0], folders[1..], other);
      if folders[0].id == id {
        assert [] + WithoutFolder(folders[1..], id) == WithoutFolder(folders[1..], id);
      } else {
        NameInCons(folders[0], WithoutFolder(folders[1..], id), other);
      }
    }
  }

  lemma DeleteFolderKeepsGroups(r: Repository, id: Id)
    requires GroupsMatch(r) && HasFolder(r.folders, id)
    ensures GroupsMatch(DeleteFolder(r, id))
  {
    var next := DeleteFolder(r, id);
    var remaining := WithoutFolder(r.folders, id);
    WithoutIsUnique(r.folders, id);
    NoEmptyId(r.folders);
    forall p | 0 <= p < |r.profiles| ensures InItsGroup(next.folders, next.profiles[p]) {
      assert InItsGroup(r.folders, r.profiles[p]);
      var parentId := next.profiles[p].parentId;
      if parentId.Some? {
        ContractedFinds(r.folders, id, parentId.value);
        SameIdsFind(remaining, next.folders, parentId.value);
        if parentId.value != id {
          WithoutNames(r.folders, id, parentId.value);
        }
      }
    }
  }

  lemma NoEmptyId(folders: seq<Folder>)
    requires UniqueFolders(folders)
    ensures !HasFolder(folders, "")
  {
  }

  lemma MoveKeepsGroups(r: Repository, id: Id, parentId: Option<Id>, order: int)
    requires GroupsMatch(r)
    ensures GroupsMatch(Move(r, id, parentId, order))
  {
    var next := Move(r, id, parentId, order);
    NoEmptyId(r.folders);
    forall p | 0 <= p < |r.profiles| ensures InItsGroup(next.folders, next.profiles[p]) {
      assert InItsGroup(r.folders, r.profiles[p]);
      if next.profiles[p].parentId.Some? {
        SameIdsFind(r.folders, next.folders, next.profiles[p].parentId.value);
      }
    }
  }

  // ----- what the two commands do to the whole repository

  /** Every chain of the old list is a chain of the new one, without `id`. */
  ghost predicate ChainsContract(folders: seq<Folder>, next: seq<Folder>, id: Id) {
    forall start, chain :: IsChain(folders, start, chain) ==>
      IsChain(next, Redirected(folders, id, start), Removed(chain, id))
  }

  /** So is every profile's chain. */
  ghost predicate ProfilesContract(r: Repository, next: Repository, id: Id) {
    |next.profiles| == |r.profiles|
    && forall k, chain :: 0 <= k < |r.profiles| && IsChain(r.folders, r.profiles[k].parentId, chain) ==>
         && next.profiles[k].id == r.profiles[k].id
         && IsChain(next.folders, next.profiles[k].parentId, Removed(chain, id))
  }

  lemma RemovalEffect(r: Repository, id: Id)
    ensures var next := DeleteFolder(r, id);
            && !HasFolder(next.folders, id)
            && (HasFolder(r.folders, id) ==> ChainsContract(r.folders, next.folders, id) && ProfilesContract(r, next, id))
            && (GroupsMatch(r) ==> GroupsMatch(next))
            && (Acyclic(r.folders) ==> Acyclic(next.folders))
  {
    if HasFolder(r.folders, id) {
      ContractedFinds(r.folders, id, id);
      ChainsDoContract(r.folders, id);
      ProfilesDoContract(r, id);
      if GroupsMatch(r) {
        DeleteFolderKeepsGroups(r, id);
      }
      if Acyclic(r.folders) {
        DeletingKeepsAcyclic(r.folders, id);
      }
    }
  }

  lemma ChainsDoContract(folders: seq<Folder>, id: Id)
    requires HasFolder(folders, id)
    ensures ChainsContract(folders, Contracted(folders, id), id)
  {
    forall start, chain | IsChain(folders, start, chain)
      ensures IsChain(Contracted(folders, id), Redirected(folders, id, start), Removed(chain, id))
    {
      DeletingContractsChains(folders, id, start, chain);
    }
  }

  lemma ProfilesDoContract(r: Repository, id: Id)
    requires HasFolder(r.folders, id)
    ensures ProfilesContract(r, DeleteFolder(r, id), id)
  {
    forall k, chain | 0 <= k < |r.profiles| && IsChain(r.folders, r.profiles[k].parentId, chain)
      ensures DeleteFolder(r, id).profiles[k].id == r.profiles[k].id
      ensures IsChain(DeleteFolder(r, id).folders, DeleteFolder(r, id).profiles[k].parentId, Removed(chain, id))
    {
      DeleteFolderContractsProfiles(r, id, k, chain);
    }
  }

  /** Only entries of that id change, and they keep their names, ids and content. */
  predicate OthersStay(r: Repository, next: Repository, id: Id) {
    && |next.profiles| == |r.profiles| && |next.folders| == |r.folders|
    && (forall k :: 0 <= k < |r.profiles| ==>
          if r.profiles[k].id == id
          then next.profiles[k].id == id && next.profiles[k].content == r.profiles[k].content
          else next.profiles[k] == r.profiles[k])
    && (forall k :: 0 <= k < |r.folders| ==>
          if r.folders[k].id == id
          then next.folders[k].id == id && next.folders[k].name == r.folders[k].name
          else next.folders[k] == r.folders[k])
  }

  /** The new list has a cycle exactly when `id` is the new parent or above it. */
  ghost predicate CyclesIff(folders: seq<Folder>, next: seq<Folder>, id: Id, parentId: Option<Id>) {
    forall above :: IsChain(folders, parentId, above) ==> (Acyclic(next) <==> id !in above)
  }

  lemma MoveEffect(r: Repository, id: Id, parentId: Option<Id>, order: int)
    ensures var next := Move(r, id, parentId, order);
            && (GroupsMatch(r) ==> GroupsMatch(next))
            && OthersStay(r, next, id)
            && (FindProfile(r.profiles, id) == |r.profiles| && HasFolder(r.folders, id) && Acyclic(r.folders) ==>
                  CyclesIff(r.folders, next.folders, id, parentId))
  {
    if GroupsMatch(r) {
      MoveKeepsGroups(r, id, parentId, order);
    }
    if FindProfile(r.profiles, id) == |r.profiles| && HasFolder(r.folders, id) && Acyclic(r.folders) {
      forall above | IsChain(r.folders, parentId, above)
        ensures Acyclic(Move(r, id, parentId, order).folders) <==> id !in above
      {
        FolderMoveKeepsAcyclicIff(r, id, parentId, order, above);
      }
    }
  }

  // ----- every run

  datatype Command =
    | CreateProfile(profile: Id, content: string, groupName: string)
    | UpdateProfile(updated: Id, newContent: string, newGroup: string)
    | NewFolder(folder: Id, name: string, parentId: Option<Id>)
    | RenameOrMove(changed: Id, updates: Updates)
    | Delete(deleted: Id)
    | Reorder(moved: Id, newParentId: Option<Id>, newOrder: int)

  /** New ids are new, and the updates of a folder do not change its id. */
  predicate Enabled(r: Repository, c: Command) {
    match c
    case NewFolder(id, _, _) => IsNew(r, id)
    case RenameOrMove(_, u) => u.id.None?
    case _ => true
  }

  function Next(r: Repository, c: Command): Repository {
    match c
    case CreateProfile(id, content, groupName) => Create(r, id, content, groupName)
    case UpdateProfile(id, content, groupName) =>
      var next := Update(r, id, content, groupName); if next.Some? then next.value else r
    case NewFolder(id, name, parentId) => CreateFolder(r, id, name, parentId)
    case RenameOrMove(id, u) => var next := UpdateFolder(r, id, u); if next.Some? then next.value else r
    case Delete(id) => DeleteFolder(r, id)
    case Reorder(id, parentId, order) => Move(r, id, parentId, order)
  }

  ghost predicate Runnable(r: Repository, run: seq<Command>)
    decreases run
  {
    run == [] || (Enabled(r, run[0]) && Runnable(Next(r, run[0]), run[1..]))
  }

  function After(r: Repository, run: seq<Command>): Repository
    decreases run
  {
    if run == [] then r else After(Next(r, run[0]), run[1..])
  }

  lemma StepKeepsGroups(r: Repository, c: Command)
    requires GroupsMatch(r) && Enabled(r, c)
    ensures GroupsMatch(Next(r, c))
  {
    match c
    case CreateProfile(id, content, groupName) => CreateKeepsGroups(r, id, content, groupName);
    case UpdateProfile(id, content, groupName) =>
      if Update(r, id, content, groupName).Some? {
        UpdateKeepsGroups(r, id, content, groupName);
      }
    case NewFolder(id, name, parentId) => CreateFolderKeepsGroups(r, id, name, parentId);
    case RenameOrMove(id, u) =>
      if HasFolder(r.folders, id) {
        UpdateFolderKeepsGroupsIff(r, id, u);
      }
    case Delete(id) =>
      if HasFolder(r.folders, id) {
        DeleteFolderKeepsGroups(r, id);
      }
    case Reorder(id, parentId, order) => MoveKeepsGroups(r, id, parentId, order);
  }

  /** Over every run, from any seed of profiles: a profile whose parent folder
      exists has that folder's name as its group. */
  lemma {:induction false} EveryRunKeepsGroups(r: Repository, run: seq<Command>)
    requires GroupsMatch(r) && Runnable(r, run)
    ensures GroupsMatch(After(r, run))
    decreases run
  {
    if run != [] {
      StepKeepsGroups(r, run[0]);
      EveryRunKeepsGroups(Next(r, run[0]), run[1..]);
    }
  }

  lemma AnySeedMatches(seed: seq<Profile>)
    ensures GroupsMatch(Repository(seed, [])) && Acyclic([])
  {
  }

  /** The parent a command gives an existing folder, when it gives it one. */
  function NewParent(r: Repository, c: Command): Option<(Id, Option<Id>)> {
    match c
    case Reorder(id, parentId, _) =>
      if FindProfile(r.profiles, id) == |r.profiles| && HasFolder(r.folders, id) then Some((id, parentId)) else None
    case RenameOrMove(id, u) =>
      if u.parentId.Some? && HasFolder(r.folders, id) then Some((id, u.parentId.value)) else None
    case _ => None
  }

  lemma UpdateIsMoved(r: Repository, id: Id, u: Updates)
    requires HasFolder(r.folders, id) && u.id.None?
    ensures IsMoved(r.folders, UpdateFolder(r, id, u).value.folders, id,
                    if u.parentId.Some? then u.parentId.value else ParentOf(r.folders, id))
  {
    var next := UpdateFolder(r, id, u).value.folders;
    forall other
      ensures HasFolder(next, other) <==> HasFolder(r.folders, other)
      ensures ParentOf(next, other)
              == if other == id && u.parentId.Some? then u.parentId.value else ParentOf(r.folders, other)
    {
      SameIdsFind(r.folders, next, other);
    }
  }

  /** A command keeps the folders free of cycles exactly when it does not put a
      folder under itself or under one of its descendants. */
  lemma StepKeepsAcyclicIff(r: Repository, c: Command, above: seq<Id>)
    requires Acyclic(r.folders) && Enabled(r, c) && (c.NewFolder? ==> c.parentId != Some(c.folder))
    requires NewParent(r, c).Some? ==> IsChain(r.folders, NewParent(r, c).value.1, above)
    ensures Acyclic(Next(r, c).folders) <==> NewParent(r, c).Some? ==> NewParent(r, c).value.0 !in above
  {
    match c
    case NewFolder(id, name, parentId) => CreateFolderKeepsAcyclic(r, id, name, parentId);
    case Delete(id) =>
      if HasFolder(r.folders, id) {
        DeletingKeepsAcyclic(r.folders, id);
      }
    case RenameOrMove(id, u) =>
      if HasFolder(r.folders, id) {
        var parentId := if u.parentId.Some? then u.parentId.value else ParentOf(r.folders, id);
        var chain := AcyclicGivesChains(r.folders, parentId);
        UpdateIsMoved(r, id, u);
        MovingKeepsAcyclicIff(r.folders, Next(r, c).folders, id, parentId, chain);
        if u.parentId.Some? {
          ChainIsUnique(r.folders, parentId, chain, above);
        } else {
          NotItsOwnAncestor(r.folders, id, chain);
        }
      }
    case Reorder(id, parentId, order) =>
      if NewParent(r, c).Some? {
        FolderMoveKeepsAcyclicIff(r, id, parentId, order, above);
      }
    case _ =>
  }
}
