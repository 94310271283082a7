/**
 * The presentation registry of a table component (`PresentationsImpl`): the
 * saved presentations of the component, keyed by id in insertion order, the
 * current and the default presentation, and the presentations waiting to be
 * saved or deleted by the next commit.
 *
 * Entities are compared by id, as CUBA entities are, so `current`, `def` and
 * the update queue hold ids. A presentation handed to the registry under a
 * known id is taken to be the stored object itself (callers obtain it through
 * `getPresentation`), so its field values are the stored entry's. The lazy
 * DataService query is the constant `source`, and the DataService commit is a
 * function passed to `Commit`.
 */
module Presentations {
  import opened Wrappers
  import opened JavaStrings

  type PresentationId = int

  datatype Presentation = Presentation(
    id: PresentationId,
    name: Option<string>,
    isNew: bool,          // `PersistenceHelper.isNew`
    isDefault: bool,      // `BooleanUtils.isTrue(getDefault())`
    autoSave: bool,       // `BooleanUtils.isTrue(getAutoSave())`
    user: Option<int>)

  datatype PresentationError =
    | InvalidPresentation(id: PresentationId)   // IllegalStateException "Invalid presentation"
    | NotLoaded                                 // the table is still null

  /** What `commit` hands to the DataService. */
  datatype CommitRequest = CommitRequest(toUpdate: set<Presentation>, toRemove: set<Presentation>)

  // ---------------------------------------------------------------------------
  // An insertion-ordered map, as a key sequence beside a map

  predicate Distinct(s: seq<PresentationId>) {
    forall i, j :: 0 <= i < j < |s| ==> s[i] != s[j]
  }

  predicate OrderedKeys(order: seq<PresentationId>, table: map<PresentationId, Presentation>) {
    Distinct(order) && (forall i :: 0 <= i < |order| ==> order[i] in table) &&
    (forall id :: id in table ==> id in order)
  }

  /** `LinkedHashMap.put` keeps the position of a key already present and appends a new one. */
  function PutKey(order: seq<PresentationId>, id: PresentationId): (r: seq<PresentationId>)
    ensures id in order ==> r == order
    ensures id !in order ==> r == order + [id]
  {
    if id in order then order else order + [id]
  }

  lemma PutKeepsOrderedKeys(order: seq<PresentationId>, table: map<PresentationId, Presentation>, p: Presentation)
    requires OrderedKeys(order, table)
    ensures OrderedKeys(PutKey(order, p.id), table[p.id := p])
  {
  }

  /** Replacing entries without changing the keys keeps the key order valid. */
  lemma SameKeysOrdered(order: seq<PresentationId>, a: map<PresentationId, Presentation>, b: map<PresentationId, Presentation>)
    requires OrderedKeys(order, a) && a.Keys == b.Keys
    ensures OrderedKeys(order, b)
  {
    assert forall id :: id in a <==> id in b by {
      forall id ensures id in a <==> id in b {
        assert id in a <==> id in a.Keys;
        assert id in b <==> id in b.Keys;
      }
    }
  }

  /** `LinkedHashMap.remove`: the other keys keep their relative order. */
  function RemoveKey(order: seq<PresentationId>, id: PresentationId): (r: seq<PresentationId>)
    ensures forall x :: x in r <==> x in order && x != id
  {
    if order == [] then []
    else
      var init := order[..|order| - 1];
      var last := order[|order| - 1];
      var rest := RemoveKey(init, id);
      if last == id then rest
      else
        assert forall k :: 0 <= k < |init| ==> init[k] == order[k];
        rest + [last]
  }

  /** Removing a key from distinct keys leaves them distinct. */
  lemma {:induction false} RemoveKeyDistinct(order: seq<PresentationId>, id: PresentationId)
    requires Distinct(order)
    ensures Distinct(RemoveKey(order, id))
  {
    if order != [] {
      var init := order[..|order| - 1];
      var last := order[|order| - 1];
      assert forall k :: 0 <= k < |init| ==> init[k] == order[k];
      RemoveKeyDistinct(init, id);
      if last != id {
        var rest := RemoveKey(init, id);
        assert forall k :: 0 <= k < |init| ==> init[k] != last;
        assert forall i :: 0 <= i < |rest| ==> rest[i] in rest;
      }
    }
  }

  lemma RemoveKeepsOrderedKeys(order: seq<PresentationId>, table: map<PresentationId, Presentation>, id: PresentationId)
    requires OrderedKeys(order, table)
    ensures OrderedKeys(RemoveKey(order, id), table - {id})
  {
    var r := RemoveKey(order, id);
    RemoveKeyDistinct(order, id);
    forall i | 0 <= i < |r|
      ensures r[i] in table - {id}
    {
      assert r[i] in r;
    }
  }

  /** The key order matches the table, and the current, the default and the queued updates are stored. */
  predicate Consistent(order: seq<PresentationId>, table: map<PresentationId, Presentation>,
                       current: Option<PresentationId>, def: Option<PresentationId>, needToUpdate: set<PresentationId>)
  {
    OrderedKeys(order, table) &&
    (current.Some? ==> current.value in table) &&
    (def.Some? ==> def.value in table) &&
    needToUpdate <= table.Keys
  }

  /** Removing a key, and clearing the current and the default when they are that key, keeps the registry consistent. */
  lemma RemoveKeepsConsistent(order: seq<PresentationId>, table: map<PresentationId, Presentation>,
                              current: Option<PresentationId>, def: Option<PresentationId>,
                              needToUpdate: set<PresentationId>, id: PresentationId)
    requires Consistent(order, table, current, def, needToUpdate)
    ensures Consistent(RemoveKey(order, id), table - {id}, if current == Some(id) then None else current,
                       if def == Some(id) then None else def, needToUpdate - {id})
  {
    RemoveKeepsOrderedKeys(order, table, id);
  }

  /** The key order `checkLoad` builds from the loaded list. */
  function LoadedOrder(list: seq<Presentation>): seq<PresentationId> {
    if list == [] then [] else PutKey(LoadedOrder(list[..|list| - 1]), list[|list| - 1].id)
  }

  /** The table `checkLoad` builds from the loaded list: a later duplicate id overwrites. */
  function LoadedTable(list: seq<Presentation>): map<PresentationId, Presentation> {
    if list == [] then map[] else LoadedTable(list[..|list| - 1])[list[|list| - 1].id := list[|list| - 1]]
  }

  /** The loaded key order lists exactly the keys of the loaded table, once each. */
  lemma {:induction false} LoadedKeys(list: seq<Presentation>)
    ensures OrderedKeys(LoadedOrder(list), LoadedTable(list))
  {
    if list != [] {
      var init := list[..|list| - 1];
      LoadedKeys(init);
      PutKeepsOrderedKeys(LoadedOrder(init), LoadedTable(init), list[|list| - 1]);
    }
  }

  /** An id is loaded exactly when some listed presentation has it. */
  lemma {:induction false} LoadedIds(list: seq<Presentation>, id: PresentationId)
    ensures id in LoadedTable(list) <==> exists k :: 0 <= k < |list| && list[k].id == id
  {
    if list != [] {
      var init := list[..|list| - 1];
      LoadedIds(init, id);
      if id in LoadedTable(init) {
        var k :| 0 <= k < |init| && init[k].id == id;
        assert list[k].id == id;
      }
      if id != list[|list| - 1].id && exists k :: 0 <= k < |list| && list[k].id == id {
        var k :| 0 <= k < |list| && list[k].id == id;
        assert init[k].id == id;
      }
    }
  }

  /** Each loaded entry is the last listed presentation with its id. */
  lemma {:induction false} LoadedLastWins(list: seq<Presentation>, k: nat)
    requires k < |list| && forall j :: k < j < |list| ==> list[j].id != list[k].id
    ensures list[k].id in LoadedTable(list) && LoadedTable(list)[list[k].id] == list[k]
  {
    if k < |list| - 1 {
      var init := list[..|list| - 1];
      assert forall j :: k < j < |init| ==> init[j] == list[j];
      LoadedLastWins(init, k);
    }
  }

  // ---------------------------------------------------------------------------
  // Default flags

  /**
   * `setDefault` on a known id: the old default's flag is cleared, then the flag
   * of `id` is set.
   */
  function MoveDefault(t: map<PresentationId, Presentation>, oldDef: Option<PresentationId>, id: PresentationId)
    : (r: map<PresentationId, Presentation>)
    requires id in t
    ensures r.Keys == t.Keys
    ensures r[id] == t[id].(isDefault := true)
    ensures oldDef.Some? && oldDef.value in t && oldDef.value != id ==>
      r[oldDef.value] == t[oldDef.value].(isDefault := false)
    ensures forall x :: x in t && x != id && Some(x) != oldDef ==> r[x] == t[x]
  {
    var cleared := if oldDef.Some? && oldDef.value in t then t[oldDef.value := t[oldDef.value].(isDefault := false)] else t;
    cleared[id := cleared[id].(isDefault := true)]
  }

  // ---------------------------------------------------------------------------
  // What the DataService commit result does to the table

  /** One entity of the commit result; it takes the default flag if it is the default. */
  function CommitStep(t: map<PresentationId, Presentation>, def: Option<PresentationId>, e: Presentation)
    : map<PresentationId, Presentation>
  {
    if e.id in t then t[e.id := if def == Some(e.id) then e.(isDefault := true) else e] else t
  }

  /** `commited`: every committed entity already in the table replaces its entry. */
  function CommittedTable(t: map<PresentationId, Presentation>, def: Option<PresentationId>, entities: seq<Presentation>)
    : (r: map<PresentationId, Presentation>)
    ensures r.Keys == t.Keys
    ensures forall id :: id in t && (forall k :: 0 <= k < |entities| ==> entities[k].id != id) ==> r[id] == t[id]
    ensures forall id :: id in r ==> (r[id] == t[id] ||
      exists k :: 0 <= k < |entities| && entities[k].id == id && (r[id] == entities[k] || r[id] == entities[k].(isDefault := true)))
  {
    if entities == [] then t
    else
      var init := entities[..|entities| - 1];
      var prev := CommittedTable(t, def, init);
      assert forall k :: 0 <= k < |init| ==> init[k] == entities[k];
      CommitStep(prev, def, entities[|entities| - 1])
  }

  predicate NameMatches(name: string, p: Presentation) {
    p.name.Some? && EqualsIgnoreCase(name, p.name.value)
  }

  class PresentationRegistry {
    /** What the DataService query of `checkLoad` returns for this component and user. */
    const source: seq<Presentation>
    /** The table is no longer null. */
    var loaded: bool
    var order: seq<PresentationId>
    var table: map<PresentationId, Presentation>
    var current: Option<PresentationId>
    var def: Option<PresentationId>
    var needToUpdate: set<PresentationId>
    var needToRemove: map<PresentationId, Presentation>

    ghost predicate Valid()
      reads this
    {
      Consistent(order, table, current, def, needToUpdate) &&
      (!loaded ==> table == map[] && needToUpdate == {} && needToRemove == map[])
    }

    /** The key order once `checkLoad` has run. */
    function OrderAfterLoad(): seq<PresentationId>
      reads this
    {
      if loaded then order else LoadedOrder(source)
    }

    /** The table once `checkLoad` has run. */
    function TableAfterLoad(): map<PresentationId, Presentation>
      reads this
    {
      if loaded then table else LoadedTable(source)
    }

    constructor(source: seq<Presentation>)
      ensures Valid()
      ensures this.source == source && !loaded && table == map[]
      ensures current.None? && def.None?
    {
      this.source := source;
      loaded := false;
      order := [];
      table := map[];
      current := None;
      def := None;
      needToUpdate := {};
      needToRemove := map[];
    }

    /** `checkLoad`: the first call fills the table from the DataService list. */
    method CheckLoad()
      requires Valid()
      modifies this
      ensures Valid() && loaded
      ensures order == old(OrderAfterLoad()) && table == old(TableAfterLoad())
      ensures unchanged(`current, `def, `needToUpdate, `needToRemove)
    {
      if loaded {
        return;
      }
      LoadedKeys(source);
      var o: seq<PresentationId> := [];
      var t: map<PresentationId, Presentation> := map[];
      for i := 0 to |source|
        invariant o == LoadedOrder(source[..i]) && t == LoadedTable(source[..i])
      {
        assert source[..i + 1][..i] == source[..i];
        o := PutKey(o, source[i].id);
        t := t[source[i].id := source[i]];
      }
      assert source[..|source|] == source;
      order := o;
      table := t;
      loaded := true;
    }

    /** `add`: stores `p`; a new presentation is queued and, when flagged, becomes the default. */
    method Add(p: Presentation)
      requires Valid()
      modifies this
      ensures Valid() && loaded
      ensures order == PutKey(old(OrderAfterLoad()), p.id) && table == old(TableAfterLoad())[p.id := p]
      ensures needToUpdate == if p.isNew then old(needToUpdate) + {p.id} else old(needToUpdate)
      ensures def == if p.isNew && p.isDefault then Some(p.id) else old(def)
      ensures unchanged(`current, `needToRemove)
    {
      CheckLoad();
      PutKeepsOrderedKeys(order, table, p);
      order := PutKey(order, p.id);
      table := table[p.id := p];
      if p.isNew {
        needToUpdate := needToUpdate + {p.id};
        if p.isDefault {
          def := Some(p.id);
        }
      }
    }

    /** `setCurrent`: null clears it, a known id selects it, an unknown id is refused. */
    method SetCurrent(p: Option<PresentationId>) returns (r: Result<(), PresentationError>)
      requires Valid()
      modifies this
      ensures Valid() && loaded
      ensures order == old(OrderAfterLoad()) && table == old(TableAfterLoad())
      ensures p.None? ==> r == Ok(()) && current.None?
      ensures p.Some? && p.value in table ==> r == Ok(()) && current == p
      ensures p.Some? && p.value !in table ==> r == Err(InvalidPresentation(p.value)) && current == old(current)
      ensures unchanged(`def, `needToUpdate, `needToRemove)
    {
      CheckLoad();
      if p.None? {
        current := None;
      } else if p.value in table {
        current := p;
      } else {
        return Err(InvalidPresentation(p.value));
      }
      return Ok(());
    }

    /**
     * `setDefault`: null clears the default; a known id takes the default flag
     * from the old default and becomes the default; an unknown id is refused.
     */
    method SetDefault(p: Option<PresentationId>) returns (r: Result<(), PresentationError>)
      requires Valid()
      modifies this
      ensures Valid() && loaded
      ensures order == old(OrderAfterLoad())
      ensures p.None? ==> r == Ok(()) && def.None? && table == old(TableAfterLoad())
      ensures p.Some? && p.value in old(TableAfterLoad()) ==>
        r == Ok(()) && def == p && table == MoveDefault(old(TableAfterLoad()), old(def), p.value)
      ensures p.Some? && p.value !in old(TableAfterLoad()) ==>
        r == Err(InvalidPresentation(p.value)) && def == old(def) && table == old(TableAfterLoad())
      ensures unchanged(`current, `needToUpdate, `needToRemove)
    {
      CheckLoad();
      if p.None? {
        def := None;
      } else if p.value in table {
        table := MoveDefault(table, def, p.value);
        def := p;
      } else {
        return Err(InvalidPresentation(p.value));
      }
      return Ok(());
    }

    /**
     * `remove`: a stored presentation leaves the table and the update queue, is
     * queued for deletion unless it is new, and stops being current or default.
     * An absent id changes nothing.
     */
    method Remove(p: Presentation)
      requires Valid()
      modifies this
      ensures Valid() && loaded
      ensures p.id !in old(TableAfterLoad()) ==>
        order == old(OrderAfterLoad()) && table == old(TableAfterLoad()) &&
        current == old(current) && def == old(def) &&
        needToUpdate == old(needToUpdate) && needToRemove == old(needToRemove)
      ensures p.id in old(TableAfterLoad()) ==>
        order == RemoveKey(old(OrderAfterLoad()), p.id) && table == old(TableAfterLoad()) - {p.id} &&
        needToUpdate == old(needToUpdate) - {p.id} &&
        needToRemove == (if p.isNew || p.id in old(needToRemove) then old(needToRemove) else old(needToRemove)[p.id := p]) &&
        def == (if old(def) == Some(p.id) then None else old(def)) &&
        current == (if old(current) == Some(p.id) then None else old(current))
    {
      CheckLoad();
      if p.id in table && !p.isNew && p.id !in needToRemove {
        needToRemove := needToRemove[p.id := p];
      }
      RemoveLoaded(p);
    }

    /** `remove` on the loaded table, leaving the deletion queue to the caller. */
    method RemoveLoaded(p: Presentation)
      requires Valid() && loaded
      modifies this
      ensures Valid() && loaded && unchanged(`needToRemove)
      ensures p.id !in old(table) ==>
        order == old(order) && table == old(table) && current == old(current) && def == old(def) &&
        needToUpdate == old(needToUpdate)
      ensures p.id in old(table) ==>
        order == RemoveKey(old(order), p.id) && table == old(table) - {p.id} &&
        needToUpdate == old(needToUpdate) - {p.id} &&
        def == (if old(def) == Some(p.id) then None else old(def)) &&
        current == (if old(current) == Some(p.id) then None else old(current))
    {
      if p.id in table {
        RemoveKeepsConsistent(order, table, current, def, needToUpdate, p.id);
        order, table, current, def, needToUpdate :=
          RemoveKey(order, p.id), table - {p.id}, if current == Some(p.id) then None else current,
          if def == Some(p.id) then None else def, needToUpdate - {p.id};
        assert Consistent(order, table, current, def, needToUpdate);
      }
    }

    /**
     * `modify`: a stored presentation is queued for update, and the default
     * follows its flag: flagged, it becomes the default; unflagged while being
     * the default, the default is cleared. An unknown id is refused.
     */
    method Modify(p: Presentation) returns (r: Result<(), PresentationError>)
      requires Valid()
      modifies this
      ensures Valid() && loaded
      ensures order == old(OrderAfterLoad()) && unchanged(`current, `needToRemove)
      ensures p.id !in old(TableAfterLoad()) ==>
        r == Err(InvalidPresentation(p.id)) && table == old(TableAfterLoad()) &&
        def == old(def) && needToUpdate == old(needToUpdate)
      ensures p.id in old(TableAfterLoad()) ==>
        r == Ok(()) && needToUpdate == old(needToUpdate) + {p.id} &&
        (p.isDefault ==> def == Some(p.id) && table == MoveDefault(old(TableAfterLoad())[p.id := p], old(def), p.id)) &&
        (!p.isDefault ==> table == old(TableAfterLoad())[p.id := p] &&
                          def == if old(def) == Some(p.id) then None else old(def))
    {
      CheckLoad();
      if p.id !in table {
        return Err(InvalidPresentation(p.id));
      }
      table := table[p.id := p];
      needToUpdate := needToUpdate + {p.id};
      if p.isDefault {
        r := SetDefault(Some(p.id));
      } else if def == Some(p.id) {
        r := SetDefault(None);
      }
      return Ok(());
    }

    /** `isAutoSave`: the stored presentation with this id exists and is flagged auto-save. */
    method IsAutoSave(id: PresentationId) returns (r: bool)
      requires Valid()
      modifies this
      ensures Valid() && loaded && order == old(OrderAfterLoad()) && table == old(TableAfterLoad())
      ensures unchanged(`current, `def, `needToUpdate, `needToRemove)
      ensures r <==> id in table && table[id].autoSave
    {
      CheckLoad();
      r := id in table && table[id].autoSave;
    }

    /** `isGlobal`: the stored presentation with this id exists, is saved and belongs to no user. */
    method IsGlobal(id: PresentationId) returns (r: bool)
      requires Valid()
      modifies this
      ensures Valid() && loaded && order == old(OrderAfterLoad()) && table == old(TableAfterLoad())
      ensures unchanged(`current, `def, `needToUpdate, `needToRemove)
      ensures r <==> id in table && !table[id].isNew && table[id].user.None?
    {
      CheckLoad();
      r := id in table && !table[id].isNew && table[id].user.None?;
    }

    /**
     * `getPresentationByName`: the first presentation in insertion order whose
     * name equals `name` ignoring case, or null. The table is not loaded first.
     */
    method GetPresentationByName(name: string) returns (r: Result<Option<Presentation>, PresentationError>)
      requires Valid()
      ensures !loaded <==> r == Err(NotLoaded)
      ensures r.Ok? && r.value.Some? ==> exists i :: (0 <= i < |order| && table[order[i]] == r.value.value &&
        NameMatches(name, r.value.value) && forall j :: 0 <= j < i ==> !NameMatches(name, table[order[j]]))
      ensures r.Ok? && r.value.None? ==> forall i :: 0 <= i < |order| ==> !NameMatches(name, table[order[i]])
    {
      if !loaded {
        return Err(NotLoaded);
      }
      for i := 0 to |order|
        invariant forall j :: 0 <= j < i ==> !NameMatches(name, table[order[j]])
      {
        var p := table[order[i]];
        if p.name.Some? && EqualsIgnoreCase(name, p.name.value) {
          return Ok(Some(p));
        }
      }
      return Ok(None);
    }

    /** `clearCommitList`: both queues are emptied. */
    method ClearCommitList()
      requires Valid()
      modifies `needToUpdate, `needToRemove
      ensures Valid() && needToUpdate == {} && needToRemove == map[]
    {
      needToUpdate := {};
      needToRemove := map[];
    }

    /**
     * `commited`: each committed entity already stored replaces its entry (the
     * default one through `setDefault`); no id is added. Called before the table
     * is loaded, a non-empty result dereferences the null table.
     */
    method Commited(entities: seq<Presentation>) returns (r: Result<(), PresentationError>)
      requires Valid()
      modifies `table
      ensures Valid()
      ensures !loaded && entities != [] ==> r == Err(NotLoaded) && table == old(table)
      ensures loaded || entities == [] ==> r == Ok(()) && table == CommittedTable(old(table), def, entities)
    {
      if entities == [] {
        return Ok(());
      }
      if !loaded {
        return Err(NotLoaded);
      }
      var t := table;
      for i := 0 to |entities|
        invariant t == CommittedTable(table, def, entities[..i])
      {
        assert entities[..i + 1][..i] == entities[..i];
        assert CommittedTable(table, def, entities[..i + 1]) == CommitStep(t, def, entities[i]);
        var e := entities[i];
        if e.id in t {
          t := t[e.id := if def == Some(e.id) then e.(isDefault := true) else e];
        }
      }
      assert entities[..|entities|] == entities;
      SameKeysOrdered(order, table, t);
      table := t;
      return Ok(());
    }

    /**
     * `commit`: with both queues empty nothing happens; otherwise the queued
     * presentations go to the DataService, its result is applied through
     * `commited` and both queues are emptied.
     */
    method Commit(service: CommitRequest -> seq<Presentation>) returns (request: Option<CommitRequest>)
      requires Valid()
      modifies this
      ensures Valid()
      ensures old(needToUpdate) == {} && old(needToRemove) == map[] ==> request.None? && unchanged(this)
      ensures !(old(needToUpdate) == {} && old(needToRemove) == map[]) ==>
        request == Some(CommitRequest(old(set id | id in needToUpdate && id in table :: table[id]),
                                      old(set id | id in needToRemove :: needToRemove[id]))) &&
        table == CommittedTable(old(table), def, service(request.value)) &&
        needToUpdate == {} && needToRemove == map[]
      ensures unchanged(`loaded, `order, `current, `def)
    {
      if needToUpdate == {} && needToRemove == map[] {
        return None;
      }
      var ctx := CommitRequest(set id | id in needToUpdate && id in table :: table[id],
                               set id | id in needToRemove :: needToRemove[id]);
      var result := service(ctx);
      var _ := Commited(result);
      ClearCommitList();
      return Some(ctx);
    }
  }

  /** After a commit of pending work, a second commit has nothing to send. */
  method CommitTwice(reg: PresentationRegistry, service: CommitRequest -> seq<Presentation>)
    returns (first: Option<CommitRequest>, second: Option<CommitRequest>)
    requires reg.Valid()
    modifies reg
    ensures reg.Valid() && second.None?
  {
    first := reg.Commit(service);
    second := reg.Commit(service);
  }
}
