/**
 * The lifecycle of a persistent entity as the core tests pin it down: the
 * three state flags of `BaseEntityInternalAccess` (`isNew`, `isManaged`,
 * `isDetached`, which are not mutually exclusive), the fetch group a partial
 * view leaves on a loaded instance, and which attributes can be read, written
 * and resolved with `PersistenceTools.getReferenceId` after `persist`,
 * `commit`, the end of a transaction, `find` with or without a view, `merge`
 * and reserialization.
 *
 * The ORM that implements this is not part of this model: the database row of
 * the entity is a parameter of every operation that reads the database, and a
 * transaction is seen through its effect on one entity.
 */
module EntityLifecycle {
  import opened Wrappers

  /** An attribute value as the entity holds it: a basic value, a reference or a collection of references. */
  datatype Value = Text(text: string) | RefTo(id: nat) | Many(ids: seq<nat>)

  /** A database row: the stored attribute values; a missing key is null. */
  type Row = map<string, Value>

  /**
   * The persistent attributes of an entity class: local (basic) attributes are
   * loaded with the instance, references and collections lazily. `required`
   * are the NOT NULL columns.
   */
  datatype MetaClass = MetaClass(local: set<string>, references: set<string>, collections: set<string>,
                                 required: set<string>)
  {
    function Attributes(): set<string> {
      local + references + collections
    }
  }

  /** A `View`: its properties and `setLoadPartialEntities`. */
  datatype View = View(properties: set<string>, partial: bool)

  predicate ViewOf(mc: MetaClass, view: Option<View>) {
    view.Some? ==> view.value.properties <= mc.Attributes()
  }

  datatype AccessError =
    | Unfetched(attribute: string)        // IllegalStateException: outside the fetch group of a partial instance
    | NotLoaded(attribute: string)        // a lazy attribute read on an instance no longer managed
    | RefIdUnavailable(attribute: string) // IllegalStateException of `getReferenceId`
    | RefIdNotLoaded(attribute: string)   // IllegalStateException of `RefId.getValue`
    | NotAReference(attribute: string)    // IllegalArgumentException of `getReferenceId`
    | DetachedPersisted                   // `persist` of a detached instance
    | ConstraintViolation                 // the commit fails on a NOT NULL column

  /** `PersistenceTools.RefId`. */
  datatype RefId = LoadedRef(attribute: string, value: Option<Value>) | NotLoadedRef(attribute: string)

  /**
   * One entity instance. `loaded` are the attributes whose values are in
   * memory, `values` their non-null values, `fetchGroup` the fetch group of an
   * instance loaded with a view.
   */
  datatype EntityState = EntityState(isNew: bool, isManaged: bool, isDetached: bool,
                                     fetchGroup: Option<set<string>>, loaded: set<string>, values: Row)

  /** What every reachable instance satisfies. */
  predicate Valid(mc: MetaClass, e: EntityState) {
    e.loaded <= mc.Attributes() && e.values.Keys <= e.loaded &&
    (e.fetchGroup.Some? ==> e.fetchGroup.value == e.loaded) &&
    !(e.isManaged && e.isDetached)
  }

  function Lookup(row: Row, attribute: string): Option<Value> {
    if attribute in row then Some(row[attribute]) else None
  }

  function Restrict(row: Row, attributes: set<string>): Row {
    map a | a in row && a in attributes :: row[a]
  }

  /** The row with the loaded attributes of an instance written over it. */
  function Overlay(row: Row, values: Row, loaded: set<string>): Row {
    map a | a in row.Keys + values.Keys && (a in loaded ==> a in values) && (a !in loaded ==> a in row) ::
      if a in loaded then values[a] else row[a]
  }

  // ---------------------------------------------------------------------------
  // Transitions

  /** `new User()`: new, neither managed nor detached, every attribute in memory. */
  function Created(mc: MetaClass): EntityState {
    EntityState(true, false, false, None, mc.Attributes(), map[])
  }

  /** `em.persist`: a new instance becomes managed and stays new. */
  function Persisted(e: EntityState): (EntityState, Result<(), AccessError>) {
    if e.isManaged then (e, Ok(()))
    else if e.isDetached then (e, Err(DetachedPersisted))
    else (e.(isManaged := true), Ok(()))
  }

  /** The attributes a load brings into memory: the local ones without a view, the view's with a partial one. */
  function FetchedBy(mc: MetaClass, view: Option<View>): set<string> {
    if view.None? then mc.local
    else if view.value.partial then view.value.properties
    else mc.local + view.value.properties
  }

  /** `em.find` or a query, with an optional view: a managed instance that is not new. */
  function Found(mc: MetaClass, row: Option<Row>, view: Option<View>): Option<EntityState> {
    if row.None? then None
    else
      var fetched := FetchedBy(mc, view);
      Some(EntityState(false, true, false, if view.None? then None else Some(fetched), fetched,
                       Restrict(row.value, fetched)))
  }

  /** An attribute brought into memory (a lazy load or a write), joining the fetch group if there is one. */
  function WithAttribute(e: EntityState, attribute: string, value: Option<Value>): EntityState {
    e.(loaded := e.loaded + {attribute},
       fetchGroup := if e.fetchGroup.Some? then Some(e.fetchGroup.value + {attribute}) else None,
       values := if value.Some? then e.values[attribute := value.value] else e.values - {attribute})
  }

  /**
   * A getter: an attribute in memory is read; a managed instance loads any
   * other from the database; otherwise it fails, as unfetched when the
   * instance has a fetch group.
   */
  function Read(row: Row, e: EntityState, attribute: string): (EntityState, Result<Option<Value>, AccessError>) {
    if attribute in e.loaded then (e, Ok(Lookup(e.values, attribute)))
    else if e.isManaged then (WithAttribute(e, attribute, Lookup(row, attribute)), Ok(Lookup(row, attribute)))
    else if e.fetchGroup.Some? then (e, Err(Unfetched(attribute)))
    else (e, Err(NotLoaded(attribute)))
  }

  /** A setter: refused only for an attribute outside the fetch group of an instance that is not managed. */
  function Assigned(e: EntityState, attribute: string, value: Option<Value>): (EntityState, Result<(), AccessError>) {
    if attribute !in e.loaded && !e.isManaged && e.fetchGroup.Some? then (e, Err(Unfetched(attribute)))
    else (WithAttribute(e, attribute, value), Ok(()))
  }

  function Detached(e: EntityState): EntityState {
    e.(isNew := false, isManaged := false, isDetached := true)
  }

  /** The end of a transaction without a commit: a persisted new instance is new again, a loaded one detached. */
  function RolledBack(e: EntityState): EntityState {
    if !e.isManaged then e
    else if e.isNew then e.(isManaged := false, isDetached := false)
    else Detached(e)
  }

  /**
   * `tx.commit()` and `tx.end()`: the managed instance's loaded attributes are
   * written over its row; the instance is detached, unless a required column
   * is null, when the transaction is rolled back.
   */
  function Committed(mc: MetaClass, row: Row, e: EntityState): (EntityState, Result<Row, AccessError>) {
    if !e.isManaged then (e, Ok(row))
    else
      var written := Overlay(row, e.values, e.loaded);
      if mc.required <= written.Keys then (Detached(e), Ok(written)) else (RolledBack(e), Err(ConstraintViolation))
  }

  /** `em.merge`: a managed copy of the row with the instance's loaded attributes written over it. */
  function Merged(mc: MetaClass, row: Row, e: EntityState): EntityState {
    if e.isManaged then e
    else if e.isNew then e.(isManaged := true, isDetached := false)
    else
      var loaded := mc.local + e.loaded;
      EntityState(false, true, false, None, loaded, Restrict(Overlay(row, e.values, e.loaded), loaded))
  }

  /** `TestSupport.reserialize`: a copy that is no longer managed; a managed instance comes back detached. */
  function Reserialized(e: EntityState): EntityState {
    e.(isManaged := false, isDetached := e.isDetached || e.isManaged)
  }

  /**
   * `PersistenceTools.getReferenceId`: with a fetch group, loaded exactly when
   * the reference is in it; without one, read from memory or, while managed,
   * from the row; otherwise an IllegalStateException.
   */
  function ReferenceIdOf(mc: MetaClass, row: Row, e: EntityState, attribute: string): Result<RefId, AccessError> {
    if attribute !in mc.references then Err(NotAReference(attribute))
    else if e.fetchGroup.Some? then
      if attribute in e.fetchGroup.value then Ok(LoadedRef(attribute, Lookup(e.values, attribute)))
      else Ok(NotLoadedRef(attribute))
    else if attribute in e.loaded then Ok(LoadedRef(attribute, Lookup(e.values, attribute)))
    else if e.isManaged then Ok(LoadedRef(attribute, Lookup(row, attribute)))
    else Err(RefIdUnavailable(attribute))
  }

  /** `RefId.getValue`. */
  function RefIdValue(r: RefId): Result<Option<Value>, AccessError> {
    if r.LoadedRef? then Ok(r.value) else Err(RefIdNotLoaded(r.attribute))
  }

  // ---------------------------------------------------------------------------
  // The instance

  /** An entity instance whose state the transitions update in place. */
  class Entity {
    var isNew: bool
    var isManaged: bool
    var isDetached: bool
    var fetchGroup: Option<set<string>>
    var loaded: set<string>
    var values: Row

    function State(): EntityState
      reads this
    {
      EntityState(isNew, isManaged, isDetached, fetchGroup, loaded, values)
    }

    /** `new User()`. */
    constructor (mc: MetaClass)
      ensures State() == Created(mc)
    {
      isNew, isManaged, isDetached := true, false, false;
      fetchGroup, loaded, values := None, mc.Attributes(), map[];
    }

    /** An instance built by the persistence layer (a load, a merge or a deserialization). */
    constructor Of(s: EntityState)
      ensures State() == s
    {
      isNew, isManaged, isDetached := s.isNew, s.isManaged, s.isDetached;
      fetchGroup, loaded, values := s.fetchGroup, s.loaded, s.values;
    }

    /** `em.find`: null when there is no row. */
    static method Find(mc: MetaClass, row: Option<Row>, view: Option<View>) returns (e: Option<Entity>)
      ensures e.None? <==> row.None?
      ensures e.Some? ==> fresh(e.value) && e.value.State() == Found(mc, row, view).value
    {
      if row.None? {
        return None;
      }
      var fetched := FetchedBy(mc, view);
      var entity := new Entity.Of(EntityState(false, true, false, if view.None? then None else Some(fetched), fetched,
                                              Restrict(row.value, fetched)));
      return Some(entity);
    }

    /** `em.persist`. */
    method Persist() returns (r: Result<(), AccessError>)
      modifies this
      ensures (State(), r) == Persisted(old(State()))
    {
      if isManaged {
        return Ok(());
      }
      if isDetached {
        return Err(DetachedPersisted);
      }
      isManaged := true;
      return Ok(());
    }

    /** An attribute comes into memory. */
    method Load(attribute: string, value: Option<Value>)
      modifies this
      ensures State() == WithAttribute(old(State()), attribute, value)
    {
      loaded := loaded + {attribute};
      if fetchGroup.Some? {
        fetchGroup := Some(fetchGroup.value + {attribute});
      }
      if value.Some? {
        values := values[attribute := value.value];
      } else {
        values := values - {attribute};
      }
    }

    /** A getter; `row` is what a lazy load reads. */
    method Get(row: Row, attribute: string) returns (r: Result<Option<Value>, AccessError>)
      modifies this
      ensures (State(), r) == Read(row, old(State()), attribute)
    {
      if attribute in loaded {
        return Ok(Lookup(values, attribute));
      }
      if isManaged {
        var value := Lookup(row, attribute);
        Load(attribute, value);
        return Ok(value);
      }
      if fetchGroup.Some? {
        return Err(Unfetched(attribute));
      }
      return Err(NotLoaded(attribute));
    }

    /** A setter. */
    method Set(attribute: string, value: Option<Value>) returns (r: Result<(), AccessError>)
      modifies this
      ensures (State(), r) == Assigned(old(State()), attribute, value)
    {
      if attribute !in loaded && !isManaged && fetchGroup.Some? {
        return Err(Unfetched(attribute));
      }
      Load(attribute, value);
      return Ok(());
    }

    /** The end of the transaction without a commit. */
    method End()
      modifies this
      ensures State() == RolledBack(old(State()))
    {
      if isManaged {
        if isNew {
          isManaged, isDetached := false, false;
        } else {
          isNew, isManaged, isDetached := false, false, true;
        }
      }
    }

    /** `tx.commit()` then `tx.end()`; the new row on success. */
    method Commit(mc: MetaClass, row: Row) returns (r: Result<Row, AccessError>)
      modifies this
      ensures (State(), r) == Committed(mc, row, old(State()))
    {
      if !isManaged {
        return Ok(row);
      }
      var written := Overlay(row, values, loaded);
      if mc.required <= written.Keys {
        isNew, isManaged, isDetached := false, false, true;
        return Ok(written);
      }
      End();
      return Err(ConstraintViolation);
    }

    /** `em.merge`: the instance itself when managed, otherwise a new managed copy. */
    method Merge(mc: MetaClass, row: Row) returns (m: Entity)
      ensures isManaged ==> m == this
      ensures !isManaged ==> fresh(m)
      ensures m.State() == Merged(mc, row, State())
    {
      if isManaged {
        return this;
      }
      m := new Entity.Of(Merged(mc, row, State()));
    }

    /** `TestSupport.reserialize`: a copy; the instance itself is unchanged. */
    method Reserialize() returns (copy: Entity)
      ensures fresh(copy) && copy.State() == Reserialized(State())
    {
      copy := new Entity.Of(State());
      copy.isManaged := false;
      copy.isDetached := isDetached || isManaged;
    }

    /** `PersistenceTools.getReferenceId`. */
    method ReferenceId(mc: MetaClass, row: Row, attribute: string) returns (r: Result<RefId, AccessError>)
      ensures r == ReferenceIdOf(mc, row, State(), attribute)
    {
      if attribute !in mc.references {
        return Err(NotAReference(attribute));
      }
      if fetchGroup.Some? {
        if attribute in fetchGroup.value {
          return Ok(LoadedRef(attribute, Lookup(values, attribute)));
        }
        return Ok(NotLoadedRef(attribute));
      }
      if attribute in loaded {
        return Ok(LoadedRef(attribute, Lookup(values, attribute)));
      }
      if isManaged {
        return Ok(LoadedRef(attribute, Lookup(row, attribute)));
      }
      return Err(RefIdUnavailable(attribute));
    }
  }

  // ---------------------------------------------------------------------------
  // General properties

  /** Every transition keeps an instance valid. */
  lemma TransitionsKeepValid(mc: MetaClass, row: Row, e: EntityState, attribute: string, value: Option<Value>)
    requires Valid(mc, e) && attribute in mc.Attributes()
    ensures Valid(mc, Created(mc))
    ensures Valid(mc, Persisted(e).0)
    ensures Valid(mc, Read(row, e, attribute).0)
    ensures Valid(mc, Assigned(e, attribute, value).0)
    ensures Valid(mc, Committed(mc, row, e).0)
    ensures Valid(mc, RolledBack(e))
    ensures Valid(mc, Merged(mc, row, e))
    ensures Valid(mc, Reserialized(e))
  {
    AccessKeepsValid(mc, row, e, attribute, value);
    EndKeepsValid(mc, row, e);
  }

  /** Creating, persisting, reading and setting keep an instance valid. */
  lemma AccessKeepsValid(mc: MetaClass, row: Row, e: EntityState, attribute: string, value: Option<Value>)
    requires Valid(mc, e) && attribute in mc.Attributes()
    ensures Valid(mc, Created(mc))
    ensures Valid(mc, Persisted(e).0)
    ensures Valid(mc, Read(row, e, attribute).0)
    ensures Valid(mc, Assigned(e, attribute, value).0)
  {
  }

  /** Committing, rolling back, merging and serializing keep an instance valid. */
  lemma EndKeepsValid(mc: MetaClass, row: Row, e: EntityState)
    requires Valid(mc, e)
    ensures Valid(mc, Committed(mc, row, e).0)
    ensures Valid(mc, RolledBack(e))
    ensures Valid(mc, Merged(mc, row, e))
    ensures Valid(mc, Reserialized(e))
  {
  }

  lemma FoundIsValid(mc: MetaClass, row: Row, view: Option<View>)
    requires ViewOf(mc, view)
    ensures Valid(mc, Found(mc, Some(row), view).value)
  {
  }

  /** The flags after each transition, as the lifecycle tests observe them. */
  lemma LifecycleFlags(mc: MetaClass, row: Row, e: EntityState, view: Option<View>)
    ensures var c := Created(mc); c.isNew && !c.isManaged && !c.isDetached
    ensures e.isNew && !e.isManaged && !e.isDetached ==>
              var p := Persisted(e).0; p.isNew && p.isManaged && !p.isDetached
    ensures var f := Found(mc, Some(row), view).value; !f.isNew && f.isManaged && !f.isDetached
    ensures e.isManaged && Committed(mc, row, e).1.Ok? ==>
              var c := Committed(mc, row, e).0; !c.isNew && !c.isManaged && c.isDetached
    ensures e.isManaged && e.isNew && Committed(mc, row, e).1.Err? ==>
              var c := Committed(mc, row, e).0; c.isNew && !c.isManaged && !c.isDetached
    ensures e.isManaged && !e.isNew ==> var c := RolledBack(e); !c.isNew && !c.isManaged && c.isDetached
    ensures !e.isManaged && e.isDetached && !e.isNew ==> var m := Merged(mc, row, e); !m.isNew && m.isManaged && !m.isDetached
  {
  }

  /** Reserializing keeps a new instance new, makes a managed one detached and keeps a detached one detached. */
  lemma ReserializedFlags(e: EntityState)
    ensures var r := Reserialized(e);
            !r.isManaged && r.isNew == e.isNew &&
            (r.isDetached <==> e.isDetached || e.isManaged) &&
            r.loaded == e.loaded && r.fetchGroup == e.fetchGroup && r.values == e.values
  {
  }

  /**
   * On an instance that is not managed an attribute is readable exactly when it
   * is in memory; otherwise the failure is `Unfetched` exactly when the
   * instance has a fetch group. Reading never changes such an instance.
   */
  lemma UnmanagedAccess(row: Row, e: EntityState, attribute: string)
    requires !e.isManaged
    ensures var (s, r) := Read(row, e, attribute);
            s == e && (r.Ok? <==> attribute in e.loaded) &&
            (r.Ok? ==> r.value == Lookup(e.values, attribute)) &&
            (r.Err? ==> (r.error == Unfetched(attribute) <==> e.fetchGroup.Some?) &&
                        (r.error == NotLoaded(attribute) <==> e.fetchGroup.None?))
  {
  }

  /** A managed instance reads every attribute, loading it from the row when needed; it stays in memory. */
  lemma ManagedAccess(row: Row, e: EntityState, attribute: string)
    requires e.isManaged
    ensures var (s, r) := Read(row, e, attribute);
            r.Ok? && attribute in s.loaded && e.loaded <= s.loaded &&
            (attribute !in e.loaded ==> r.value == Lookup(row, attribute)) &&
            s.isNew == e.isNew && s.isManaged && s.isDetached == e.isDetached
  {
  }

  /** Reserialization does not change what an instance that is not managed can read. */
  lemma ReserializedKeepsAccess(row: Row, e: EntityState, attribute: string)
    requires !e.isManaged
    ensures Read(row, Reserialized(e), attribute).1 == Read(row, e, attribute).1
  {
  }

  /** The reference id is loaded exactly when the reference is in the fetch group of an instance that has one. */
  lemma ReferenceIdWithFetchGroup(mc: MetaClass, row: Row, e: EntityState, attribute: string)
    requires attribute in mc.references && e.fetchGroup.Some?
    ensures var r := ReferenceIdOf(mc, row, e, attribute);
            r.Ok? && (r.value.LoadedRef? <==> attribute in e.fetchGroup.value) &&
            (r.value.NotLoadedRef? ==> RefIdValue(r.value) == Err(RefIdNotLoaded(attribute)))
  {
  }

  // ---------------------------------------------------------------------------
  // The test scenarios, on the `User` entity of the tests

  const UserClass := MetaClass({"name", "login", "position"}, {"group"}, {"userRoles"}, {"login", "group"})

  /** The row of a stored user. */
  predicate StoredUser(row: Row) {
    "name" in row && "login" in row && "group" in row && "userRoles" in row
  }

  /**
   * The first transaction of `EntityStateTest.testTransactions`: a user is
   * created, persisted and committed; the stored row holds what was set.
   */
  lemma TransactionsScenario(name: string, login: string, group: nat)
    ensures var c := Created(UserClass);
            c.isNew && !c.isManaged && !c.isDetached &&
            var s1 := Assigned(Assigned(Assigned(c, "name", Some(Text(name))).0, "login", Some(Text(login))).0, "group", Some(RefTo(group))).0;
            var p := Persisted(s1).0;
            p.isNew && p.isManaged && !p.isDetached &&
            var (d, written) := Committed(UserClass, map[], p);
            written.Ok? && !d.isNew && !d.isManaged && d.isDetached &&
            StoredUserFields(written.value, name, login, group)
  {
  }

  /**
   * The later transactions of `EntityStateTest.testTransactions`: the stored
   * user is read and its group read; committed, changed while detached,
   * merged and committed again, the new row has the new name. The test reads
   * the user twice, by `find` in one transaction and by a query in the next;
   * both give a managed instance of the same row with the same flags, so the
   * two reads are modelled as one `Found`.
   */
  lemma TransactionsRenameScenario(row: Row, name: string, login: string, group: nat, changed: string)
    requires StoredUserFields(row, name, login, group)
    ensures var f := Found(UserClass, Some(row), None).value;
            !f.isNew && f.isManaged && !f.isDetached &&
            var (g, groupRead) := Read(row, f, "group");
            groupRead == Ok(Some(RefTo(group))) && !g.isNew && g.isManaged && !g.isDetached &&
            var (d2, written2) := Committed(UserClass, row, g);
            written2.Ok? && !d2.isNew && !d2.isManaged && d2.isDetached &&
            var (ch, setName) := Assigned(d2, "name", Some(Text(changed)));
            setName.Ok? &&
            var m := Merged(UserClass, written2.value, ch);
            !m.isNew && m.isManaged && !m.isDetached &&
            var (d3, written3) := Committed(UserClass, written2.value, m);
            written3.Ok? && StoredUserFields(written3.value, changed, login, group) &&
            !d3.isNew && !d3.isManaged && d3.isDetached
  {
  }

  /** `EntityStateTest.testSerialization`. */
  lemma SerializationScenario(row: Row, changed: string)
    requires StoredUser(row)
    ensures var c := Reserialized(Created(UserClass));
            c.isNew && !c.isManaged && !c.isDetached
    ensures var f := Found(UserClass, Some(row), None).value;
            var r := Reserialized(f);
            !r.isNew && !r.isManaged && r.isDetached &&
            var (ch, _) := Assigned(r, "name", Some(Text(changed)));
            var m := Merged(UserClass, row, ch);
            !m.isNew && m.isManaged && !m.isDetached &&
            var (d, written) := Committed(UserClass, row, m);
            written.Ok? && !d.isNew && !d.isManaged && d.isDetached &&
            var r2 := Reserialized(d);
            !r2.isNew && !r2.isManaged && r2.isDetached
  {
  }

  /** `EntityStateTest.testTransactionRollback_new`: without a group the commit fails and the user is new again. */
  lemma RollbackNewScenario(login: string)
    ensures var s := Assigned(Created(UserClass), "login", Some(Text(login))).0;
            var p := Persisted(s).0;
            p.isNew && p.isManaged && !p.isDetached &&
            var (r, outcome) := Committed(UserClass, map[], p);
            outcome == Err(ConstraintViolation) && r.isNew && !r.isManaged && !r.isDetached
  {
  }

  /** `EntityStateTest.testTransactionRollback_loaded`: a found user is detached once the transaction ends. */
  lemma RollbackLoadedScenario(row: Row)
    ensures var f := Found(UserClass, Some(row), None).value;
            !f.isNew && f.isManaged && !f.isDetached &&
            var e := RolledBack(f);
            !e.isNew && !e.isManaged && e.isDetached
  {
  }

  /**
   * `EclipseLinkDetachedTest.testNotSerialized` and `testSerialized`: loaded
   * without a view, the name is readable once detached and reserialized, the
   * group and the user roles are not.
   */
  lemma DetachedWithoutViewScenario(row: Row)
    requires StoredUser(row)
    ensures var d := Committed(UserClass, row, Found(UserClass, Some(row), None).value).0;
            forall e | e == d || e == Reserialized(d) ::
              Read(row, e, "name").1 == Ok(Some(row["name"])) &&
              Read(row, e, "group").1.Err? && Read(row, e, "userRoles").1.Err?
  {
  }

  /**
   * `EclipseLinkDetachedTest.testNotSerializedFetchGroup` and
   * `testSerializedFetchGroup`: loaded with the partial view {login}, only the
   * login is readable; the name and the group are unfetched.
   */
  lemma DetachedPartialScenario(row: Row)
    requires StoredUser(row)
    ensures var v := View({"login"}, true);
            var d := Committed(UserClass, row, Found(UserClass, Some(row), Some(v)).value).0;
            forall e | e == d || e == Reserialized(d) ::
              Read(row, e, "login").1 == Ok(Some(row["login"])) &&
              Read(row, e, "name").1 == Err(Unfetched("name")) &&
              Read(row, e, "group").1 == Err(Unfetched("group")) &&
              Read(row, e, "userRoles").1 == Err(Unfetched("userRoles"))
  {
  }

  /**
   * `EclipseLinkDetachedTest.testSerializedFetchGroupMerge`: the login changed
   * on the detached partial user is merged and committed; the merged user has
   * the new login and the stored name, not the group or the roles; a later
   * load without a view sees both.
   */
  lemma PartialMergeScenario(row: Row, newLogin: string)
    requires StoredUser(row)
    ensures var v := View({"login"}, true);
            var d := Reserialized(Committed(UserClass, row, Found(UserClass, Some(row), Some(v)).value).0);
            var (ch, setLogin) := Assigned(d, "login", Some(Text(newLogin)));
            setLogin.Ok? &&
            var (m, written) := Committed(UserClass, row, Merged(UserClass, row, ch));
            written.Ok? &&
            var r := Reserialized(m);
            Read(row, r, "login").1 == Ok(Some(Text(newLogin))) &&
            Read(row, r, "name").1 == Ok(Some(row["name"])) &&
            Read(row, r, "group").1.Err? && Read(row, r, "userRoles").1.Err? &&
            var later := Reserialized(Committed(UserClass, written.value, Found(UserClass, Some(written.value), None).value).0);
            Read(written.value, later, "login").1 == Ok(Some(Text(newLogin))) &&
            Read(written.value, later, "name").1 == Ok(Some(row["name"]))
  {
  }

  /**
   * `GetReferenceIdTest.testWithFetchGroup`: a partial view without the group
   * leaves its id unloaded, one with the group loads it; the roles in the view
   * stay readable after reserialization.
   */
  lemma ReferenceIdFetchGroupScenario(row: Row)
    requires StoredUser(row)
    ensures var f := Found(UserClass, Some(row), Some(View({"login", "userRoles"}, true))).value;
            ReferenceIdOf(UserClass, row, f, "group") == Ok(NotLoadedRef("group")) &&
            RefIdValue(NotLoadedRef("group")) == Err(RefIdNotLoaded("group")) &&
            Read(row, Reserialized(Committed(UserClass, row, f).0), "userRoles").1 == Ok(Some(row["userRoles"]))
    ensures var f := Found(UserClass, Some(row), Some(View({"login", "group", "userRoles"}, true))).value;
            ReferenceIdOf(UserClass, row, f, "group") == Ok(LoadedRef("group", Some(row["group"]))) &&
            Read(row, Reserialized(Committed(UserClass, row, f).0), "userRoles").1 == Ok(Some(row["userRoles"]))
  {
  }

  /**
   * `GetReferenceIdTest.testWithoutFetchGroup`: without a view the group id is
   * loaded inside the transaction; after it, and after reserialization,
   * `getReferenceId` fails.
   */
  lemma ReferenceIdWithoutViewScenario(row: Row)
    requires StoredUser(row)
    ensures var f := Found(UserClass, Some(row), None).value;
            ReferenceIdOf(UserClass, row, f, "group") == Ok(LoadedRef("group", Some(row["group"]))) &&
            var d := Committed(UserClass, row, f).0;
            ReferenceIdOf(UserClass, row, d, "group") == Err(RefIdUnavailable("group")) &&
            ReferenceIdOf(UserClass, row, Reserialized(d), "group") == Err(RefIdUnavailable("group"))
  {
  }

  /**
   * `UnfetchedAttributeTest.testGet` and `testSet`: a group outside a
   * non-partial view, read lazily or set while managed, is there after the
   * commit and reserialization, with the roles of the view.
   */
  lemma UnfetchedAttributeScenario(row: Row, group: nat)
    requires StoredUser(row)
    ensures var f := Found(UserClass, Some(row), Some(View({"login", "userRoles"}, false))).value;
            var read := Reserialized(Committed(UserClass, row, Read(row, f, "group").0).0);
            Read(row, read, "group").1 == Ok(Some(row["group"])) &&
            Read(row, read, "userRoles").1 == Ok(Some(row["userRoles"])) &&
            var written := Reserialized(Committed(UserClass, row, Assigned(f, "group", Some(RefTo(group))).0).0);
            Read(row, written, "group").1 == Ok(Some(RefTo(group))) &&
            Read(row, written, "userRoles").1 == Ok(Some(row["userRoles"]))
  {
  }

  /**
   * The first transaction of `EntityStateTest.testTransactions` on an
   * instance: a created user is persisted and committed, with the flags after
   * each step; the stored row holds what was set.
   */
  method CreateUserTest(name: string, login: string, group: nat) returns (stored: Row)
    ensures StoredUserFields(stored, name, login, group)
  {
    TransactionsScenario(name, login, group);
    var user := new Entity(UserClass);
    assert user.isNew && !user.isManaged && !user.isDetached;
    var _ := user.Set("name", Some(Text(name)));
    var _ := user.Set("login", Some(Text(login)));
    var _ := user.Set("group", Some(RefTo(group)));
    var _ := user.Persist();
    assert user.isNew && user.isManaged && !user.isDetached;
    var written := user.Commit(UserClass, map[]);
    assert written.Ok? && !user.isNew && !user.isManaged && user.isDetached;
    stored := written.value;
  }

  predicate StoredUserFields(row: Row, name: string, login: string, group: nat) {
    "name" in row && row["name"] == Text(name) && "login" in row && row["login"] == Text(login) &&
    "group" in row && row["group"] == RefTo(group)
  }

  /**
   * The later transactions of `EntityStateTest.testTransactions` on an
   * instance: the stored user is found, its group read, the user detached,
   * renamed, merged and committed; the new row has the new name and keeps the
   * login and the group.
   */
  method RenameUserTest(row: Row, name: string, login: string, group: nat, changed: string) returns (stored: Row)
    requires StoredUserFields(row, name, login, group)
    ensures StoredUserFields(stored, changed, login, group)
  {
    TransactionsRenameScenario(row, name, login, group, changed);
    var found := Entity.Find(UserClass, Some(row), None);
    var user := found.value;
    assert !user.isNew && user.isManaged && !user.isDetached;
    var groupRead := user.Get(row, "group");
    assert groupRead == Ok(Some(RefTo(group)));
    var again := user.Commit(UserClass, row);
    assert again.Ok? && !user.isNew && !user.isManaged && user.isDetached;
    var _ := user.Set("name", Some(Text(changed)));
    var merged := user.Merge(UserClass, again.value);
    assert !merged.isNew && merged.isManaged && !merged.isDetached;
    var last := merged.Commit(UserClass, again.value);
    assert last.Ok? && !merged.isNew && !merged.isManaged && merged.isDetached;
    stored := last.value;
  }

  /**
   * `EntityStateTest.testTransactionRollback_new` on an instance: without a
   * group the commit fails and the persisted user is new again.
   */
  method RollbackNewTest(login: string) returns (outcome: Result<Row, AccessError>, isNew: bool, isManaged: bool,
                                                 isDetached: bool)
    ensures outcome == Err(ConstraintViolation)
    ensures isNew && !isManaged && !isDetached
  {
    var user := new Entity(UserClass);
    var _ := user.Set("login", Some(Text(login)));
    var _ := user.Persist();
    assert user.isNew && user.isManaged && !user.isDetached;
    outcome := user.Commit(UserClass, map[]);
    isNew, isManaged, isDetached := user.isNew, user.isManaged, user.isDetached;
  }
}
