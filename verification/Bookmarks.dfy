/** Path bookmarks (commands/path_bookmarks.rs).

    One vector holds the bookmarks of every scope; each command works on the
    bookmarks of one scope as if they were a list of their own. */
module Bookmarks {
  import opened Wrappers
  import opened Text

  datatype Bookmark = Bookmark(id: string, scope: string, path: string, name: string, isFolder: bool)

  datatype Action = Add | Remove | Up | Down

  datatype BookmarkError = InvalidScope | InvalidPath

  const MAX_PATH_BYTES := 32768

  predicate ValidScope(scope: string) {
    scope == "local" || ("remote:" <= scope && |scope| > |"remote:"|)
  }

  predicate ValidPath(path: string) {
    Trim(path) != "" && '\0' !in path && Utf8Length(path) <= MAX_PATH_BYTES
  }

  // ----- the bookmarks of one scope

  /** Where the bookmarks of a scope are. */
  function Indices(items: seq<Bookmark>, scope: string): (indices: seq<nat>)
    ensures forall k :: 0 <= k < |indices| ==> indices[k] < |items|
  {
    if items == [] then []
    else
      var n := |items| - 1;
      Indices(items[..n], scope) + if items[n].scope == scope then [n] else []
  }

  /** The list of one scope. */
  function View(items: seq<Bookmark>, scope: string): seq<Bookmark> {
    if items == [] then []
    else
      var last := items[|items| - 1];
      View(items[..|items| - 1], scope) + if last.scope == scope then [last] else []
  }

  lemma {:induction false} IndicesAreAscending(items: seq<Bookmark>, scope: string)
    ensures forall k, m :: 0 <= k < m < |Indices(items, scope)| ==> Indices(items, scope)[k] < Indices(items, scope)[m]
    ensures forall k :: 0 <= k < |Indices(items, scope)| ==> items[Indices(items, scope)[k]].scope == scope
  {
    if items != [] {
      IndicesAreAscending(items[..|items| - 1], scope);
    }
  }

  /** The list shows the items at these places, in this order. */
  lemma {:induction false} ViewIsAtIndices(items: seq<Bookmark>, scope: string)
    ensures |View(items, scope)| == |Indices(items, scope)|
    ensures forall k :: 0 <= k < |View(items, scope)| ==> View(items, scope)[k] == items[Indices(items, scope)[k]]
  {
    if items != [] {
      ViewIsAtIndices(items[..|items| - 1], scope);
    }
  }

  lemma {:induction false} IndicesAreComplete(items: seq<Bookmark>, scope: string, i: nat)
    requires i < |items| && items[i].scope == scope
    ensures i in Indices(items, scope)
  {
    var n := |items| - 1;
    var before := Indices(items[..n], scope);
    if i < n {
      IndicesAreComplete(items[..n], scope, i);
    } else {
      assert Indices(items, scope)[|before|] == n;
    }
  }

  lemma ViewOfPush(items: seq<Bookmark>, b: Bookmark, scope: string)
    ensures View(items + [b], scope) == View(items, scope) + if b.scope == scope then [b] else []
  {
  }

  lemma {:induction false} SameScopesSameIndices(items: seq<Bookmark>, next: seq<Bookmark>, scope: string)
    requires |items| == |next| && forall i :: 0 <= i < |items| ==> items[i].scope == next[i].scope
    ensures Indices(items, scope) == Indices(next, scope)
  {
    if items != [] {
      SameScopesSameIndices(items[..|items| - 1], next[..|items| - 1], scope);
    }
  }

  // ----- the command

  predicate HasPath(items: seq<Bookmark>, scope: string, path: string) {
    exists i :: 0 <= i < |items| && items[i].scope == scope && items[i].path == path
  }

  function Retained(items: seq<Bookmark>, scope: string, id: string): seq<Bookmark> {
    if items == [] then []
    else
      var last := items[|items| - 1];
      Retained(items[..|items| - 1], scope, id) + if last.scope != scope || last.id != id then [last] else []
  }

  /** The first position among `indices` of an item with this id, or their number. */
  function PositionOf(items: seq<Bookmark>, indices: seq<nat>, id: string): (p: nat)
    requires forall k :: 0 <= k < |indices| ==> indices[k] < |items|
    ensures p <= |indices|
    ensures p < |indices| ==> items[indices[p]].id == id
    ensures forall k :: 0 <= k < p ==> items[indices[k]].id != id
  {
    if indices == [] then 0
    else if items[indices[0]].id == id then 0
    else 1 + PositionOf(items, indices[1..], id)
  }

  function Swapped<T>(xs: seq<T>, i: nat, j: nat): (ys: seq<T>)
    requires i < |xs| && j < |xs|
    ensures |ys| == |xs| && ys[i] == xs[j] && ys[j] == xs[i]
    ensures forall k :: 0 <= k < |xs| && k != i && k != j ==> ys[k] == xs[k]
  {
    xs[i := xs[j]][j := xs[i]]
  }

  function Moved(items: seq<Bookmark>, scope: string, id: string, up: bool): seq<Bookmark> {
    var indices := Indices(items, scope);
    var p := PositionOf(items, indices, id);
    if p == |indices| then items
    else if up then if p == 0 then items else Swapped(items, indices[p], indices[p - 1])
    else if p + 1 == |indices| then items else Swapped(items, indices[p], indices[p + 1])
  }

  function Apply(items: seq<Bookmark>, scope: string, action: Action, b: Bookmark, newId: string)
    : Result<seq<Bookmark>, BookmarkError>
  {
    if !ValidScope(scope) then Failure(InvalidScope)
    else
      match action
      case Add =>
        if !ValidPath(b.path) then Failure(InvalidPath)
        else if HasPath(items, scope, b.path) then Success(items)
        else Success(items + [b.(id := newId, scope := scope)])
      case Remove => Success(Retained(items, scope, b.id))
      case Up => Success(Moved(items, scope, b.id, true))
      case Down => Success(Moved(items, scope, b.id, false))
  }

  // ----- the command on the list of its scope

  function WithoutId(list: seq<Bookmark>, id: string): seq<Bookmark> {
    if list == [] then []
    else WithoutId(list[..|list| - 1], id) + if list[|list| - 1].id != id then [list[|list| - 1]] else []
  }

  function FirstWithId(list: seq<Bookmark>, id: string): (p: nat)
    ensures p <= |list|
    ensures p < |list| ==> list[p].id == id
    ensures forall k :: 0 <= k < p ==> list[k].id != id
  {
    if list == [] then 0 else if list[0].id == id then 0 else 1 + FirstWithId(list[1..], id)
  }

  predicate ListHasPath(list: seq<Bookmark>, path: string) {
    exists k :: 0 <= k < |list| && list[k].path == path
  }

  function OnList(list: seq<Bookmark>, scope: string, action: Action, b: Bookmark, newId: string): seq<Bookmark> {
    var p := FirstWithId(list, b.id);
    match action
    case Add => if ListHasPath(list, b.path) then list else list + [b.(id := newId, scope := scope)]
    case Remove => WithoutId(list, b.id)
    case Up => if 0 < p < |list| then Swapped(list, p, p - 1) else list
    case Down => if p + 1 < |list| then Swapped(list, p, p + 1) else list
  }

  lemma PositionInView(items: seq<Bookmark>, scope: string, id: string)
    ensures PositionOf(items, Indices(items, scope), id) == FirstWithId(View(items, scope), id)
    ensures |View(items, scope)| == |Indices(items, scope)|
  {
    ViewIsAtIndices(items, scope);
  }

  /** The position is the one place with the id and none before it. */
  lemma PositionIs(items: seq<Bookmark>, indices: seq<nat>, id: string, p: nat)
    requires forall k :: 0 <= k < |indices| ==> indices[k] < |items|
    requires p < |indices| && items[indices[p]].id == id
    requires forall k :: 0 <= k < p ==> items[indices[k]].id != id
    ensures PositionOf(items, indices, id) == p
  {
  }

  lemma PathInView(items: seq<Bookmark>, scope: string, path: string)
    ensures HasPath(items, scope, path) <==> ListHasPath(View(items, scope), path)
  {
    var indices := Indices(items, scope);
    ViewIsAtIndices(items, scope);
    IndicesAreAscending(items, scope);
    if HasPath(items, scope, path) {
      var i :| 0 <= i < |items| && items[i].scope == scope && items[i].path == path;
      IndicesAreComplete(items, scope, i);
      var k :| 0 <= k < |indices| && indices[k] == i;
      assert View(items, scope)[k].path == path;
    }
    if ListHasPath(View(items, scope), path) {
      var k :| 0 <= k < |View(items, scope)| && View(items, scope)[k].path == path;
      assert items[indices[k]].path == path;
    }
  }

  lemma {:induction false} RetainedViews(items: seq<Bookmark>, scope: string, id: string, other: string)
    ensures View(Retained(items, scope, id), other)
            == if other == scope then WithoutId(View(items, scope), id) else View(items, other)
  {
    if items != [] {
      var front, last := items[..|items| - 1], items[|items| - 1];
      RetainedViews(front, scope, id, other);
      RetainedOfPush(front, last, scope, id);
      assert items == front + [last];
      if other == scope {
        OwnViewStep(front, last, Retained(front, scope, id), scope, id);
      } else {
        OtherViewStep(front, last, Retained(front, scope, id), other);
      }
    }
  }

  lemma OwnViewStep(front: seq<Bookmark>, last: Bookmark, kept: seq<Bookmark>, scope: string, id: string)
    requires View(kept, scope) == WithoutId(View(front, scope), id)
    ensures View(if last.scope == scope && last.id == id then kept else kept + [last], scope)
            == WithoutId(View(front + [last], scope), id)
  {
    if last.scope == scope {
      ViewWithOneMore(front, last);
      ViewWithOneMore(kept, last);
      WithoutIdOfPush(View(front, scope), last, id);
    } else {
      ViewWithAnother(front, last, scope);
      ViewWithAnother(kept, last, scope);
    }
  }

  lemma OtherViewStep(front: seq<Bookmark>, last: Bookmark, kept: seq<Bookmark>, other: string)
    requires View(kept, other) == View(front, other)
    ensures View(kept + [last], other) == View(front + [last], other)
    ensures last.scope != other ==> View(kept, other) == View(front + [last], other)
  {
  }

  lemma RetainedOfPush(items: seq<Bookmark>, b: Bookmark, scope: string, id: string)
    ensures Retained(items + [b], scope, id)
            == if b.scope == scope && b.id == id then Retained(items, scope, id) else Retained(items, scope, id) + [b]
  {
  }

  lemma ViewWithOneMore(items: seq<Bookmark>, b: Bookmark)
    ensures View(items + [b], b.scope) == View(items, b.scope) + [b]
  {
  }

  lemma ViewWithAnother(items: seq<Bookmark>, b: Bookmark, scope: string)
    requires b.scope != scope
    ensures View(items + [b], scope) == View(items, scope)
  {
  }

  lemma WithoutIdOfPush(list: seq<Bookmark>, b: Bookmark, id: string)
    ensures WithoutId(list + [b], id) == if b.id == id then WithoutId(list, id) else WithoutId(list, id) + [b]
  {
  }

  lemma SwappedIndices(items: seq<Bookmark>, scope: string, a: nat, b: nat, other: string)
    requires a < |Indices(items, scope)| && b < |Indices(items, scope)|
    ensures var indices := Indices(items, scope);
            Indices(Swapped(items, indices[a], indices[b]), other) == Indices(items, other)
  {
    var indices := Indices(items, scope);
    IndicesAreAscending(items, scope);
    SameScopesSameIndices(items, Swapped(items, indices[a], indices[b]), other);
  }

  lemma SwappedView(items: seq<Bookmark>, scope: string, a: nat, b: nat)
    requires a < |Indices(items, scope)| && b < |Indices(items, scope)| && |View(items, scope)| == |Indices(items, scope)|
    ensures var indices := Indices(items, scope);
            View(Swapped(items, indices[a], indices[b]), scope) == Swapped(View(items, scope), a, b)
  {
    var indices := Indices(items, scope);
    var next := Swapped(items, indices[a], indices[b]);
    SwappedIndices(items, scope, a, b, scope);
    IndicesAreAscending(items, scope);
    ViewIsAtIndices(items, scope);
    ViewIsAtIndices(next, scope);
    forall k | 0 <= k < |indices| ensures View(next, scope)[k] == Swapped(View(items, scope), a, b)[k] {
      assert k != a ==> indices[k] != indices[a];
      assert k != b ==> indices[k] != indices[b];
    }
  }

  lemma SwappedOtherView(items: seq<Bookmark>, scope: string, a: nat, b: nat, other: string)
    requires a < |Indices(items, scope)| && b < |Indices(items, scope)| && other != scope
    ensures var indices := Indices(items, scope);
            View(Swapped(items, indices[a], indices[b]), other) == View(items, other)
  {
    var indices := Indices(items, scope);
    var next := Swapped(items, indices[a], indices[b]);
    SwappedIndices(items, scope, a, b, other);
    IndicesAreAscending(items, scope);
    IndicesAreAscending(items, other);
    ViewIsAtIndices(items, other);
    ViewIsAtIndices(next, other);
    var others := Indices(items, other);
    forall k | 0 <= k < |others| ensures View(next, other)[k] == View(items, other)[k] {
      assert items[others[k]].scope == other;
    }
  }

  lemma MovedViews(items: seq<Bookmark>, scope: string, b: Bookmark, up: bool, other: string)
    ensures View(Moved(items, scope, b.id, up), other)
            == if other == scope then OnList(View(items, scope), scope, if up then Up else Down, b, "")
               else View(items, other)
  {
    var p := PositionOf(items, Indices(items, scope), b.id);
    var q := if up then p - 1 else p + 1;
    PositionInView(items, scope, b.id);
    if p < |Indices(items, scope)| && 0 <= q < |Indices(items, scope)| {
      if other == scope {
        SwappedView(items, scope, p, q);
      } else {
        SwappedOtherView(items, scope, p, q, other);
      }
    }
  }

  /** The store refines one list per scope: a command that succeeds acts on the
      list of its scope and leaves the list of every other scope as it was. */
  lemma ScopesAreIndependent(items: seq<Bookmark>, scope: string, action: Action, b: Bookmark, newId: string, other: string)
    requires Apply(items, scope, action, b, newId).Success?
    ensures View(Apply(items, scope, action, b, newId).value, other)
            == if other == scope then OnList(View(items, scope), scope, action, b, newId) else View(items, other)
  {
    match action
    case Add =>
      PathInView(items, scope, b.path);
      ViewOfPush(items, b.(id := newId, scope := scope), other);
    case Remove => RetainedViews(items, scope, b.id, other);
    case Up => MovedViews(items, scope, b, true, other);
    case Down => MovedViews(items, scope, b, false, other);
  }

  lemma SwapTwice(items: seq<Bookmark>, i: nat, j: nat)
    requires i < |items| && j < |items|
    ensures Swapped(Swapped(items, i, j), j, i) == items
  {
  }

  /** After item `p` changes places with its neighbour it is found there. */
  lemma FoundAfterMove(items: seq<Bookmark>, scope: string, id: string, p: nat, q: nat)
    requires p == PositionOf(items, Indices(items, scope), id)
    requires p < |Indices(items, scope)| && q < |Indices(items, scope)|
    requires q + 1 == p || (q == p + 1 && items[Indices(items, scope)[q]].id != id)
    ensures var indices := Indices(items, scope);
            var next := Swapped(items, indices[p], indices[q]);
            Indices(next, scope) == indices && PositionOf(next, indices, id) == q
  {
    var indices := Indices(items, scope);
    var next := Swapped(items, indices[p], indices[q]);
    SwappedIndices(items, scope, p, q, scope);
    IndicesAreAscending(items, scope);
    forall k | 0 <= k < q ensures next[indices[k]].id != id {
      assert k != p ==> indices[k] != indices[p] && indices[k] != indices[q];
    }
    PositionIs(next, indices, id, q);
  }

  /** Moving an item that is not the first of its scope up and then down again
      gives back the whole store, also when ids repeat. */
  lemma UpThenDownIsIdentity(items: seq<Bookmark>, scope: string, id: string)
    requires 0 < FirstWithId(View(items, scope), id) < |View(items, scope)|
    ensures Moved(Moved(items, scope, id, true), scope, id, false) == items
  {
    var indices := Indices(items, scope);
    var p := PositionOf(items, indices, id);
    PositionInView(items, scope, id);
    FoundAfterMove(items, scope, id, p, p - 1);
    SwapTwice(items, indices[p], indices[p - 1]);
  }

  /** So does moving it down and then up, when the item below has another id. */
  lemma DownThenUpIsIdentity(items: seq<Bookmark>, scope: string, id: string)
    requires var list := View(items, scope); var p := FirstWithId(list, id);
             p + 1 < |list| && list[p + 1].id != id
    ensures Moved(Moved(items, scope, id, false), scope, id, true) == items
  {
    var indices := Indices(items, scope);
    var p := PositionOf(items, indices, id);
    PositionInView(items, scope, id);
    ViewIsAtIndices(items, scope);
    FoundAfterMove(items, scope, id, p, p + 1);
    SwapTwice(items, indices[p], indices[p + 1]);
  }

  // ----- every run

  predicate PathsAreUnique(items: seq<Bookmark>) {
    forall i, j :: 0 <= i < j < |items| && items[i].scope == items[j].scope ==> items[i].path != items[j].path
  }

  lemma {:induction false} RetainedKeepsUnique(items: seq<Bookmark>, scope: string, id: string)
    requires PathsAreUnique(items)
    ensures PathsAreUnique(Retained(items, scope, id))
    ensures forall k :: 0 <= k < |Retained(items, scope, id)| ==> Retained(items, scope, id)[k] in items
  {
    if items != [] {
      var front, last := items[..|items| - 1], items[|items| - 1];
      RetainedKeepsUnique(front, scope, id);
      var kept := Retained(front, scope, id);
      forall k | 0 <= k < |kept| ensures kept[k] in items && (kept[k].scope == last.scope ==> kept[k].path != last.path) {
        assert kept[k] in front;
        var i :| 0 <= i < |front| && front[i] == kept[k];
        assert items[i] == kept[k];
      }
    }
  }

  lemma SwappedKeepsUnique(items: seq<Bookmark>, i: nat, j: nat)
    requires PathsAreUnique(items) && i < |items| && j < |items| && items[i].scope == items[j].scope
    ensures PathsAreUnique(Swapped(items, i, j))
  {
  }

  /** Within a scope no two bookmarks have the same path, whatever is done. */
  lemma ApplyKeepsUnique(items: seq<Bookmark>, scope: string, action: Action, b: Bookmark, newId: string)
    requires PathsAreUnique(items) && Apply(items, scope, action, b, newId).Success?
    ensures PathsAreUnique(Apply(items, scope, action, b, newId).value)
  {
    match action
    case Add =>
    case Remove => RetainedKeepsUnique(items, scope, b.id);
    case Up => MovedKeepsUnique(items, scope, b.id, true);
    case Down => MovedKeepsUnique(items, scope, b.id, false);
  }

  lemma MovedKeepsUnique(items: seq<Bookmark>, scope: string, id: string, up: bool)
    requires PathsAreUnique(items)
    ensures PathsAreUnique(Moved(items, scope, id, up))
  {
    var indices := Indices(items, scope);
    var p := PositionOf(items, indices, id);
    IndicesAreAscending(items, scope);
    if up && 0 < p < |indices| {
      SwappedKeepsUnique(items, indices[p], indices[p - 1]);
    }
    if !up && p + 1 < |indices| {
      SwappedKeepsUnique(items, indices[p], indices[p + 1]);
    }
  }

  datatype Update = Update(scope: string, action: Action, bookmark: Bookmark, newId: string)

  function AfterAll(items: seq<Bookmark>, updates: seq<Update>): seq<Bookmark>
    decreases updates
  {
    if updates == [] then items
    else
      var u := updates[0];
      var next := Apply(items, u.scope, u.action, u.bookmark, u.newId);
      AfterAll(if next.Success? then next.value else items, updates[1..])
  }

  lemma {:induction false} EveryRunKeepsUnique(items: seq<Bookmark>, updates: seq<Update>)
    requires PathsAreUnique(items)
    ensures PathsAreUnique(AfterAll(items, updates))
    decreases updates
  {
    if updates != [] {
      var u := updates[0];
      var next := Apply(items, u.scope, u.action, u.bookmark, u.newId);
      if next.Success? {
        ApplyKeepsUnique(items, u.scope, u.action, u.bookmark, u.newId);
      }
      EveryRunKeepsUnique(if next.Success? then next.value else items, updates[1..]);
    }
  }

  // ----- in place

  class BookmarkStore {
    var items: seq<Bookmark>

    constructor (stored: seq<Bookmark>)
      ensures items == stored
    {
      items := stored;
    }

    method Retain(scope: string, id: string)
      modifies this
      ensures items == Retained(old(items), scope, id)
    {
      var kept, k := [], 0;
      while k < |items|
        invariant k <= |items| && items == old(items)
        invariant kept == Retained(items[..k], scope, id)
      {
        assert items[..k + 1][..k] == items[..k];
        if items[k].scope != scope || items[k].id != id {
          kept := kept + [items[k]];
        }
        k := k + 1;
      }
      assert items[..k] == items;
      items := kept;
    }

    method CollectIndices(scope: string) returns (indices: seq<nat>)
      ensures indices == Indices(items, scope)
    {
      indices := [];
      var k := 0;
      while k < |items|
        invariant k <= |items|
        invariant indices == Indices(items[..k], scope)
      {
        assert items[..k + 1][..k] == items[..k];
        if items[k].scope == scope {
          indices := indices + [k];
        }
        k := k + 1;
      }
      assert items[..k] == items;
    }

    method Move(scope: string, id: string, up: bool)
      modifies this
      ensures items == Moved(old(items), scope, id, up)
    {
      var indices := CollectIndices(scope);
      var p := PositionOf(items, indices, id);
      if p < |indices| {
        if up && p > 0 {
          items := Swapped(items, indices[p], indices[p - 1]);
        } else if !up && p + 1 < |indices| {
          items := Swapped(items, indices[p], indices[p + 1]);
        }
      }
    }

    method Perform(scope: string, action: Action, b: Bookmark, newId: string) returns (r: Result<(), BookmarkError>)
      modifies this
      ensures match Apply(old(items), scope, action, b, newId)
              case Failure(e) => r == Failure(e) && items == old(items)
              case Success(next) => r == Success(()) && items == next
    {
      if !ValidScope(scope) {
        return Failure(InvalidScope);
      }
      match action {
        case Add =>
          if !ValidPath(b.path) {
            return Failure(InvalidPath);
          }
          if !HasPath(items, scope, b.path) {
            items := items + [b.(id := newId, scope := scope)];
          }
        case Remove => Retain(scope, b.id);
        case Up => Move(scope, b.id, true);
        case Down => Move(scope, b.id, false);
      }
      return Success(());
    }
  }
}
