/**
 * The start-up database check of the middleware (`DbUpdaterManager`): on the
 * master node every data store is updated when automatic update is enabled
 * for it and checked otherwise; other nodes only check. Problems are reported
 * in messages framed by `=` banners.
 *
 * The store list, the cluster role, the configuration and the `DbUpdater` of
 * each store are inputs; a `DbUpdater` is described by what its calls return,
 * None standing for a DbInitializationException.
 */
module DbUpdate {
  import opened Wrappers
  import opened JavaStrings

  // ---------------------------------------------------------------------------
  // Message banners

  /** The length of the longest string of `lines` (0 for no lines). */
  function MaxLength(lines: seq<string>): (m: nat)
    ensures forall k :: 0 <= k < |lines| ==> |lines[k]| <= m
    ensures lines != [] ==> exists k :: 0 <= k < |lines| && |lines[k]| == m
  {
    if lines == [] then 0
    else
      var rest := MaxLength(lines[..|lines| - 1]);
      var last := |lines[|lines| - 1]|;
      assert forall k :: 0 <= k < |lines| - 1 ==> lines[..|lines| - 1][k] == lines[k];
      if rest < last then last else rest
  }

  /** `wrapText`: the message between two rules of '=' as long as its longest line. */
  function WrapText(message: string): string {
    var width := MaxLength(SplitOn(message, '\n'));
    "\n" + Repeat('=', width) + "\n" + message + "\n" + Repeat('=', width)
  }

  /**
   * The banner's rule is exactly as wide as the message's longest line, and
   * cutting the rules off gives the message back.
   */
  lemma WrapTextLayout(message: string)
    ensures var lines := SplitOn(message, '\n');
            var width := MaxLength(lines);
            var w := WrapText(message);
            |w| == |message| + 2 * width + 3 &&
            w[0] == '\n' && w[width + 1] == '\n' && w[|w| - width - 1] == '\n' &&
            (forall k :: 1 <= k <= width ==> w[k] == '=') &&
            (forall k :: |w| - width <= k < |w| ==> w[k] == '=') &&
            w[width + 2..|w| - width - 1] == message &&
            (forall k :: 0 <= k < |lines| ==> |lines[k]| <= width) &&
            (exists k :: 0 <= k < |lines| && |lines[k]| == width)
  {
    var width := MaxLength(SplitOn(message, '\n'));
    var rule := Repeat('=', width);
    var w := WrapText(message);
    var head := "\n" + rule + "\n";
    var tail := "\n" + rule;
    assert w == head + message + tail;
    assert w[..|head|] == head && w[|head|..|w| - |tail|] == message && w[|w| - |tail|..] == tail;
    assert forall k :: 1 <= k <= width ==> w[k] == head[k] == rule[k - 1];
    assert forall k :: |w| - width <= k < |w| ==> w[k] == tail[k - (|w| - |tail|)] == rule[k - (|w| - width)];
  }

  // ---------------------------------------------------------------------------
  // Configuration

  datatype Store = MainStore | NamedStore(name: string)

  /** `getAutomaticUpdatePropertyName`. */
  function AutomaticUpdatePropertyName(store: Store): (r: string)
    ensures store.MainStore? ==> r == "cuba.automaticDatabaseUpdate_MAIN"
    ensures store.NamedStore? ==> r == "cuba.automaticDatabaseUpdate_" + store.name
  {
    "cuba.automaticDatabaseUpdate_" + (if store.MainStore? then "MAIN" else store.name)
  }

  /** The property names of different additional stores differ. */
  lemma PropertyNamesDiffer(a: Store, b: Store)
    requires a.NamedStore? && b.NamedStore? && a != b
    ensures AutomaticUpdatePropertyName(a) != AutomaticUpdatePropertyName(b)
  {
    var prefix := "cuba.automaticDatabaseUpdate_";
    assert AutomaticUpdatePropertyName(a)[|prefix|..] == a.name;
    assert AutomaticUpdatePropertyName(b)[|prefix|..] == b.name;
  }

  /** `supportsAutomaticDatabaseUpdate`: the global flag, or the store's own property read as a boolean. */
  predicate SupportsAutomaticUpdate(globalFlag: bool, property: string -> Option<string>, store: Store) {
    globalFlag || ParseBoolean(property(AutomaticUpdatePropertyName(store)))
  }

  // ---------------------------------------------------------------------------
  // Checking and updating one store

  /** What the `DbUpdater` prototype of a store answers; None is a DbInitializationException. */
  datatype Updater = Updater(initialized: Option<bool>, updateScripts: Option<seq<string>>, updateSucceeds: bool)

  datatype Action =
    | Update(store: Store)
    | Check(store: Store)
    | WarnPendingScripts(store: Store, scripts: seq<string>)

  datatype DbError =
    | NotInitialized(store: Store, property: string)   // IllegalStateException
    | CannotCheck(store: Store)                        // RuntimeException around DbInitializationException
    | CannotUpdate(store: Store)                       // RuntimeException around DbInitializationException

  /** `updateDatabase`. */
  function UpdateDatabase(store: Store, u: Updater): (seq<Action>, Result<(), DbError>) {
    ([Update(store)], if u.updateSucceeds then Ok(()) else Err(CannotUpdate(store)))
  }

  /**
   * `checkDatabase`: an uninitialized store is an error naming the property
   * that would enable the update; pending scripts only give a warning.
   */
  function CheckDatabase(store: Store, u: Updater): (r: (seq<Action>, Result<(), DbError>))
    ensures |r.0| > 0 && r.0[0] == Check(store)
    ensures r.1.Ok? <==> u.initialized == Some(true) && u.updateScripts.Some?
    ensures u.initialized == Some(false) ==> r.1 == Err(NotInitialized(store, AutomaticUpdatePropertyName(store)))
    ensures r.1.Ok? && u.updateScripts.value != [] ==> r.0 == [Check(store), WarnPendingScripts(store, u.updateScripts.value)]
    ensures r.1.Ok? && u.updateScripts.value == [] ==> r.0 == [Check(store)]
  {
    match u.initialized
    case None => ([Check(store)], Err(CannotCheck(store)))
    case Some(false) => ([Check(store)], Err(NotInitialized(store, AutomaticUpdatePropertyName(store))))
    case Some(true) =>
      match u.updateScripts
      case None => ([Check(store)], Err(CannotCheck(store)))
      case Some(scripts) =>
        if scripts == [] then ([Check(store)], Ok(()))
        else ([Check(store), WarnPendingScripts(store, scripts)], Ok(()))
  }

  /** The decision `applicationInitialized` makes for one store. */
  function HandleStore(isMaster: bool, globalFlag: bool, property: string -> Option<string>,
                       updaters: Store -> Updater, store: Store): (seq<Action>, Result<(), DbError>) {
    if isMaster && SupportsAutomaticUpdate(globalFlag, property, store) then UpdateDatabase(store, updaters(store))
    else CheckDatabase(store, updaters(store))
  }

  /** `applicationInitialized` over the stores in order, stopping at the first exception. */
  function Startup(isMaster: bool, globalFlag: bool, property: string -> Option<string>,
                   updaters: Store -> Updater, stores: seq<Store>): (seq<Action>, Result<(), DbError>) {
    if stores == [] then ([], Ok(()))
    else
      var before := Startup(isMaster, globalFlag, property, updaters, stores[..|stores| - 1]);
      if before.1.Err? then before
      else
        var step := HandleStore(isMaster, globalFlag, property, updaters, stores[|stores| - 1]);
        (before.0 + step.0, step.1)
  }

  /** A node that is not the master never updates a store. */
  lemma {:induction false} NonMasterNeverUpdates(globalFlag: bool, property: string -> Option<string>,
                                                 updaters: Store -> Updater, stores: seq<Store>)
    ensures var actions := Startup(false, globalFlag, property, updaters, stores).0;
            forall k :: 0 <= k < |actions| ==> !actions[k].Update?
  {
    if stores != [] {
      var init := stores[..|stores| - 1];
      NonMasterNeverUpdates(globalFlag, property, updaters, init);
      var before := Startup(false, globalFlag, property, updaters, init).0;
      assert forall k :: 0 <= k < |Startup(false, globalFlag, property, updaters, init).0| ==>
        !Startup(false, globalFlag, property, updaters, init).0[k].Update?;
      if Startup(false, globalFlag, property, updaters, init).1.Ok? {
        var actions := HandleStore(false, globalFlag, property, updaters, stores[|stores| - 1]).0;
        assert Startup(false, globalFlag, property, updaters, stores).0 == before + actions;
        assert forall k :: 0 <= k < |actions| ==> !actions[k].Update?;
        assert forall k :: 0 <= k < |before + actions| ==>
          (before + actions)[k] == if k < |before| then before[k] else actions[k - |before|];
      }
    }
  }

  /**
   * A start-up that ends without an exception has handled every store: on the
   * master the updated stores are exactly those with automatic update enabled,
   * and every other store was checked.
   */
  lemma {:induction false} StartupHandlesEveryStore(isMaster: bool, globalFlag: bool, property: string -> Option<string>,
                                                    updaters: Store -> Updater, stores: seq<Store>)
    ensures var (actions, outcome) := Startup(isMaster, globalFlag, property, updaters, stores);
            outcome.Ok? ==> forall s :: s in stores ==>
              (Update(s) in actions <==> isMaster && SupportsAutomaticUpdate(globalFlag, property, s)) &&
              (Check(s) in actions <==> !(isMaster && SupportsAutomaticUpdate(globalFlag, property, s)))
  {
    if stores != [] {
      var init := stores[..|stores| - 1];
      var last := stores[|stores| - 1];
      StartupHandlesEveryStore(isMaster, globalFlag, property, updaters, init);
      var (before, outcome) := Startup(isMaster, globalFlag, property, updaters, init);
      if outcome.Ok? {
        var (actions, r) := HandleStore(isMaster, globalFlag, property, updaters, last);
        HandledOnlyItself(isMaster, globalFlag, property, updaters, last);
        StartupMentionsOnlyItsStores(isMaster, globalFlag, property, updaters, init);
        forall s | s in stores
          ensures s in init || s == last
        {
          var k :| 0 <= k < |stores| && stores[k] == s;
          if k < |init| {
            assert init[k] == s;
          }
        }
      }
    }
  }

  /** The actions for one store name only that store, with the decision's kind. */
  lemma HandledOnlyItself(isMaster: bool, globalFlag: bool, property: string -> Option<string>,
                          updaters: Store -> Updater, store: Store)
    ensures var (actions, _) := HandleStore(isMaster, globalFlag, property, updaters, store);
            var update := isMaster && SupportsAutomaticUpdate(globalFlag, property, store);
            (forall k :: 0 <= k < |actions| ==> actions[k].store == store) &&
            (Update(store) in actions <==> update) && (Check(store) in actions <==> !update)
  {
  }

  /** Start-up actions only name stores of the list. */
  lemma {:induction false} StartupMentionsOnlyItsStores(isMaster: bool, globalFlag: bool, property: string -> Option<string>,
                                                        updaters: Store -> Updater, stores: seq<Store>)
    ensures var actions := Startup(isMaster, globalFlag, property, updaters, stores).0;
            forall k :: 0 <= k < |actions| ==> actions[k].store in stores
  {
    if stores != [] {
      var init := stores[..|stores| - 1];
      StartupMentionsOnlyItsStores(isMaster, globalFlag, property, updaters, init);
      HandledOnlyItself(isMaster, globalFlag, property, updaters, stores[|stores| - 1]);
      assert forall s :: s in init ==> s in stores;
      var before := Startup(isMaster, globalFlag, property, updaters, init).0;
      assert forall k :: 0 <= k < |Startup(isMaster, globalFlag, property, updaters, init).0| ==>
        Startup(isMaster, globalFlag, property, updaters, init).0[k].store in init;
      if Startup(isMaster, globalFlag, property, updaters, init).1.Ok? {
        var actions := HandleStore(isMaster, globalFlag, property, updaters, stores[|stores| - 1]).0;
        assert Startup(isMaster, globalFlag, property, updaters, stores).0 == before + actions;
        assert forall k :: 0 <= k < |before + actions| ==>
          (before + actions)[k] == if k < |before| then before[k] else actions[k - |before|];
      } else {
        assert Startup(isMaster, globalFlag, property, updaters, stores).0 == before;
      }
    }
  }

  /** Once a store has failed, the stores after it are not handled. */
  lemma {:induction false} StartupStopsAtFailure(isMaster: bool, globalFlag: bool, property: string -> Option<string>,
                                                 updaters: Store -> Updater, stores: seq<Store>, i: nat)
    requires i <= |stores| && Startup(isMaster, globalFlag, property, updaters, stores[..i]).1.Err?
    ensures Startup(isMaster, globalFlag, property, updaters, stores) ==
            Startup(isMaster, globalFlag, property, updaters, stores[..i])
    decreases |stores| - i
  {
    if i < |stores| {
      var longer := stores[..|stores| - 1];
      assert longer[..i] == stores[..i];
      StartupStopsAtFailure(isMaster, globalFlag, property, updaters, longer, i);
    } else {
      assert stores[..i] == stores;
    }
  }

  /**
   * `applicationInitialized`: the two loops of the source, one per cluster
   * role, running update or check per store until an exception escapes.
   */
  method ApplicationInitialized(isMaster: bool, globalFlag: bool, property: string -> Option<string>,
                                updaters: Store -> Updater, stores: seq<Store>)
    returns (actions: seq<Action>, outcome: Result<(), DbError>)
    ensures (actions, outcome) == Startup(isMaster, globalFlag, property, updaters, stores)
  {
    actions := [];
    if isMaster {
      for i := 0 to |stores|
        invariant (actions, Ok(())) == Startup(isMaster, globalFlag, property, updaters, stores[..i])
      {
        assert stores[..i + 1][..i] == stores[..i];
        var step;
        if SupportsAutomaticUpdate(globalFlag, property, stores[i]) {
          step := UpdateDatabase(stores[i], updaters(stores[i]));
        } else {
          step := CheckDatabase(stores[i], updaters(stores[i]));
        }
        actions := actions + step.0;
        if step.1.Err? {
          StartupStopsAtFailure(isMaster, globalFlag, property, updaters, stores, i + 1);
          return actions, step.1;
        }
      }
    } else {
      for i := 0 to |stores|
        invariant (actions, Ok(())) == Startup(isMaster, globalFlag, property, updaters, stores[..i])
      {
        assert stores[..i + 1][..i] == stores[..i];
        var step := CheckDatabase(stores[i], updaters(stores[i]));
        actions := actions + step.0;
        if step.1.Err? {
          StartupStopsAtFailure(isMaster, globalFlag, property, updaters, stores, i + 1);
          return actions, step.1;
        }
      }
    }
    assert stores[..|stores|] == stores;
    outcome := Ok(());
  }
}
