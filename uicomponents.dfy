/**
 * Registration of external UI components in the web client
 * (`WebExternalUIComponentsSource`): each `<component>` element of a
 * `cuba-ui-component.xml` descriptor may register a component class under its
 * name and a component loader under its tag; the descriptor may also replace
 * the window and fragment loaders.
 *
 * Class loading is a `ClassPath` value naming the loadable classes and the
 * classes assignable to each expected base class. Descriptor resources are
 * given already parsed.
 */
module UiComponents {
  import opened Wrappers
  import opened JavaStrings
  import opened Xml

  datatype ClassPath = ClassPath(
    loadable: set<string>,
    components: set<string>,         // assignable to `Component`
    componentLoaders: set<string>,   // assignable to `ComponentLoader`
    windowLoaders: set<string>,      // assignable to `WindowLoader`
    fragmentLoaders: set<string>)    // assignable to `FragmentLoader`

  datatype UiError =
    | ClassNotFound(className: string)            // ClassNotFoundException from the class loader
    | LoaderClassNotLoadable(className: string)   // `scripting.loadClassNN` fails
    | MissingLoaderClass(loaderElement: string)   // no `<class>` child: a null dereference
    | UnableToLoadConfig(location: string)        // RuntimeException around ClassNotFoundException

  // ---------------------------------------------------------------------------
  // One `<component>` element

  datatype ComponentEntry = ComponentEntry(name: string, componentClass: string, loaderClass: string, tag: string)

  /** The four fields of a `<component>`, trimmed, absent ones empty; an empty tag defaults to the name. */
  function ReadEntry(component: Node): ComponentEntry {
    var name := TrimToEmpty(ElementText(component, "name"));
    var tag := TrimToEmpty(ElementText(component, "tag"));
    ComponentEntry(name, TrimToEmpty(ElementText(component, "class")),
                   TrimToEmpty(ElementText(component, "componentLoader")),
                   if tag == "" then name else tag)
  }

  /**
   * An absent child reads as empty; the tag is empty only when both the tag
   * and the name are, and an empty tag defaults to the name.
   */
  lemma ReadEntryFields(component: Node)
    ensures var e := ReadEntry(component);
            (ChildElement(component, "name").None? ==> e.name == "") &&
            (ChildElement(component, "class").None? ==> e.componentClass == "") &&
            (ChildElement(component, "componentLoader").None? ==> e.loaderClass == "") &&
            (e.tag == "" <==> e.name == "" && TrimToEmpty(ElementText(component, "tag")) == "") &&
            (TrimToEmpty(ElementText(component, "tag")) == "" ==> e.tag == e.name) &&
            (ChildElement(component, "name").Some? ==>
              e.name == Trim(OwnText(ChildElement(component, "name").value.children)))
  {
  }

  /** The element is skipped with a warning: no name and no tag, or no class of either kind. */
  predicate Skipped(e: ComponentEntry) {
    (e.name == "" && e.tag == "") || (e.loaderClass == "" && e.componentClass == "")
  }

  predicate RegistersComponent(e: ComponentEntry) {
    !Skipped(e) && e.name != "" && e.componentClass != ""
  }

  predicate RegistersLoader(e: ComponentEntry) {
    !Skipped(e) && e.tag != "" && e.loaderClass != ""
  }

  /**
   * The loop body of `_registerComponent` on one element: returns the component
   * and loader registries afterwards and the exception that ends the loop, if any.
   */
  function RegisterEntry(e: ComponentEntry, cp: ClassPath, components: map<string, string>, loaders: map<string, string>)
    : (map<string, string>, map<string, string>, Option<UiError>)
  {
    if Skipped(e) then (components, loaders, None)
    else if RegistersComponent(e) && e.componentClass !in cp.loadable then
      (components, loaders, Some(ClassNotFound(e.componentClass)))
    else
      var components' := if RegistersComponent(e) && e.componentClass in cp.components
                         then components[e.name := e.componentClass] else components;
      if RegistersLoader(e) && e.loaderClass !in cp.loadable then
        (components', loaders, Some(ClassNotFound(e.loaderClass)))
      else
        var loaders' := if RegistersLoader(e) && e.loaderClass in cp.componentLoaders
                        then loaders[e.tag := e.loaderClass] else loaders;
        (components', loaders', None)
  }

  /**
   * A skipped element changes nothing; a component is registered under its name
   * exactly when name and class are present and the class is a Component, and a
   * loader under its tag exactly when tag and loader class are present and the
   * class is a ComponentLoader; a class that cannot be loaded ends the loop.
   */
  lemma RegisterEntryEffect(e: ComponentEntry, cp: ClassPath, components: map<string, string>, loaders: map<string, string>)
    ensures var r := RegisterEntry(e, cp, components, loaders);
            (Skipped(e) ==> r == (components, loaders, None)) &&
            (r.0 == if RegistersComponent(e) && e.componentClass in cp.loadable && e.componentClass in cp.components
                    then components[e.name := e.componentClass] else components) &&
            (RegistersComponent(e) && e.componentClass !in cp.loadable ==>
              r == (components, loaders, Some(ClassNotFound(e.componentClass)))) &&
            (!(RegistersComponent(e) && e.componentClass !in cp.loadable) ==>
              r.1 == (if RegistersLoader(e) && e.loaderClass in cp.loadable && e.loaderClass in cp.componentLoaders
                      then loaders[e.tag := e.loaderClass] else loaders) &&
              r.2 == (if RegistersLoader(e) && e.loaderClass !in cp.loadable then Some(ClassNotFound(e.loaderClass))
                      else None))
  {
  }

  /** An element without a name is still registered under its tag when it names a loader. */
  lemma TagOnlyEntryRegistersLoader(e: ComponentEntry, cp: ClassPath, components: map<string, string>,
                                    loaders: map<string, string>)
    requires e.name == "" && e.tag != "" && e.loaderClass != ""
    requires e.loaderClass in cp.loadable && e.loaderClass in cp.componentLoaders
    ensures RegisterEntry(e, cp, components, loaders) == (components, loaders[e.tag := e.loaderClass], None)
  {
  }

  /** The loop of `_registerComponent` over the `<component>` entries, stopping at the first exception. */
  function RegisterEntries(entries: seq<ComponentEntry>, cp: ClassPath,
                           components: map<string, string>, loaders: map<string, string>)
    : (map<string, string>, map<string, string>, Option<UiError>)
  {
    if entries == [] then (components, loaders, None)
    else
      var prev := RegisterEntries(entries[..|entries| - 1], cp, components, loaders);
      if prev.2.Some? then prev else RegisterEntry(entries[|entries| - 1], cp, prev.0, prev.1)
  }

  /**
   * Registration only adds or rebinds: every name registered before stays
   * registered, and every new binding comes from an element of the descriptor
   * whose class is a Component.
   */
  lemma {:induction false} RegisteredComponentsComeFromEntries(entries: seq<ComponentEntry>, cp: ClassPath,
                                                               components: map<string, string>, loaders: map<string, string>)
    ensures var r := RegisterEntries(entries, cp, components, loaders);
            components.Keys <= r.0.Keys &&
            forall n :: n in r.0 ==> ((n in components && r.0[n] == components[n]) ||
              (exists k :: 0 <= k < |entries| && RegistersComponent(entries[k]) &&
                           entries[k].name == n && r.0[n] == entries[k].componentClass && r.0[n] in cp.components))
  {
    if entries != [] {
      var init := entries[..|entries| - 1];
      var e := entries[|entries| - 1];
      RegisteredComponentsComeFromEntries(init, cp, components, loaders);
      var prev := RegisterEntries(init, cp, components, loaders);
      if prev.2.None? {
        var r := RegisterEntry(e, cp, prev.0, prev.1);
        EntryComponents(e, cp, prev.0, prev.1);
        forall n | n in r.0
          ensures (n in components && r.0[n] == components[n]) ||
                  (exists k :: 0 <= k < |entries| && RegistersComponent(entries[k]) &&
                               entries[k].name == n && r.0[n] == entries[k].componentClass && r.0[n] in cp.components)
        {
          if n in prev.0 && r.0[n] == prev.0[n] {
            if !(n in components && r.0[n] == components[n]) {
              var k :| 0 <= k < |init| && RegistersComponent(init[k]) &&
                       init[k].name == n && prev.0[n] == init[k].componentClass && prev.0[n] in cp.components;
              assert entries[k] == init[k];
            }
          } else {
            assert entries[|entries| - 1] == e;
          }
        }
      } else {
        assert forall k :: 0 <= k < |init| ==> init[k] == entries[k];
      }
    }
  }

  /** One element adds or rebinds at most its own name, to a Component class. */
  lemma EntryComponents(e: ComponentEntry, cp: ClassPath, components: map<string, string>, loaders: map<string, string>)
    ensures var r := RegisterEntry(e, cp, components, loaders);
            components.Keys <= r.0.Keys &&
            forall n :: n in r.0 ==> ((n in components && r.0[n] == components[n]) ||
              (RegistersComponent(e) && e.name == n && r.0[n] == e.componentClass && r.0[n] in cp.components))
  {
  }

  /** One element adds or rebinds at most its own tag, to a ComponentLoader class. */
  lemma EntryLoaders(e: ComponentEntry, cp: ClassPath, components: map<string, string>, loaders: map<string, string>)
    ensures var r := RegisterEntry(e, cp, components, loaders);
            loaders.Keys <= r.1.Keys &&
            forall t :: t in r.1 ==> ((t in loaders && r.1[t] == loaders[t]) ||
              (RegistersLoader(e) && e.tag == t && r.1[t] == e.loaderClass && r.1[t] in cp.componentLoaders))
  {
  }

  /** Loaders are only added or rebound, each new binding coming from an element naming a ComponentLoader. */
  lemma {:induction false} RegisteredLoadersComeFromEntries(entries: seq<ComponentEntry>, cp: ClassPath,
                                                            components: map<string, string>, loaders: map<string, string>)
    ensures var r := RegisterEntries(entries, cp, components, loaders);
            loaders.Keys <= r.1.Keys &&
            forall t :: t in r.1 ==> ((t in loaders && r.1[t] == loaders[t]) ||
              (exists k :: 0 <= k < |entries| && RegistersLoader(entries[k]) &&
                           entries[k].tag == t && r.1[t] == entries[k].loaderClass && r.1[t] in cp.componentLoaders))
  {
    if entries != [] {
      var init := entries[..|entries| - 1];
      var e := entries[|entries| - 1];
      RegisteredLoadersComeFromEntries(init, cp, components, loaders);
      var prev := RegisterEntries(init, cp, components, loaders);
      if prev.2.None? {
        var r := RegisterEntry(e, cp, prev.0, prev.1);
        EntryLoaders(e, cp, prev.0, prev.1);
        forall t | t in r.1
          ensures (t in loaders && r.1[t] == loaders[t]) ||
                  (exists k :: 0 <= k < |entries| && RegistersLoader(entries[k]) &&
                               entries[k].tag == t && r.1[t] == entries[k].loaderClass && r.1[t] in cp.componentLoaders)
        {
          if t in prev.1 && r.1[t] == prev.1[t] {
            if !(t in loaders && r.1[t] == loaders[t]) {
              var k :| 0 <= k < |init| && RegistersLoader(init[k]) &&
                       init[k].tag == t && prev.1[t] == init[k].loaderClass && prev.1[t] in cp.componentLoaders;
              assert entries[k] == init[k];
            }
          } else {
            assert entries[|entries| - 1] == e;
          }
        }
      } else {
        assert forall k :: 0 <= k < |init| ==> init[k] == entries[k];
      }
    }
  }

  /** Once an element has failed, the elements after it are not looked at. */
  lemma {:induction false} RegisterStopsAtFailure(entries: seq<ComponentEntry>, cp: ClassPath,
                                                  components: map<string, string>, loaders: map<string, string>, i: nat)
    requires i <= |entries| && RegisterEntries(entries[..i], cp, components, loaders).2.Some?
    ensures RegisterEntries(entries, cp, components, loaders) == RegisterEntries(entries[..i], cp, components, loaders)
    decreases |entries| - i
  {
    if i < |entries| {
      var longer := entries[..|entries| - 1];
      assert longer[..i] == entries[..i];
      RegisterStopsAtFailure(longer, cp, components, loaders, i);
    } else {
      assert entries[..i] == entries;
    }
  }

  /** The `<component>` elements read in document order. */
  function Entries(elements: seq<Node>): seq<ComponentEntry> {
    if elements == [] then [] else Entries(elements[..|elements| - 1]) + [ReadEntry(elements[|elements| - 1])]
  }

  lemma {:induction false} EntriesRead(elements: seq<Node>)
    ensures |Entries(elements)| == |elements|
    ensures forall k :: 0 <= k < |elements| ==> Entries(elements)[k] == ReadEntry(elements[k])
  {
    if elements != [] {
      var init := elements[..|elements| - 1];
      var last := ReadEntry(elements[|elements| - 1]);
      EntriesRead(init);
      assert Entries(elements) == Entries(init) + [last];
      forall k | 0 <= k < |elements|
        ensures Entries(elements)[k] == ReadEntry(elements[k])
      {
        if k < |init| {
          assert init[k] == elements[k];
          assert Entries(elements)[k] == Entries(init)[k];
        } else {
          assert k == |elements| - 1;
          assert Entries(elements)[k] == last;
        }
      }
    }
  }

  // ---------------------------------------------------------------------------
  // Window and fragment loaders

  const WindowLoaderElement := "windowLoader"
  const FragmentLoaderElement := "fragmentLoader"

  /**
   * `loadWindowLoader`: the class named by the `<class>` child of the loader
   * element when it is assignable to the expected base class; nothing when the
   * element is absent or the class is of the wrong kind.
   */
  function LoadWindowLoader(root: Node, loaderElement: string, cp: ClassPath, expected: set<string>)
    : (r: Result<Option<string>, UiError>)
    ensures ChildElement(root, loaderElement).None? ==> r == Ok(None)
    ensures ChildElement(root, loaderElement).Some? ==>
      var elem := ChildElement(root, loaderElement).value;
      (ChildElement(elem, "class").None? ==> r == Err(MissingLoaderClass(loaderElement))) &&
      (ChildElement(elem, "class").Some? ==>
        var loaderClass := StringValue(ChildElement(elem, "class").value);
        r == if loaderClass !in cp.loadable then Err(LoaderClassNotLoadable(loaderClass))
             else if loaderClass in expected then Ok(Some(loaderClass))
             else Ok(None))
  {
    match ChildElement(root, loaderElement)
    case None => Ok(None)
    case Some(elem) =>
      match ChildElement(elem, "class")
      case None => Err(MissingLoaderClass(loaderElement))
      case Some(classElem) =>
        var loaderClass := StringValue(classElem);
        if loaderClass !in cp.loadable then Err(LoaderClassNotLoadable(loaderClass))
        else if loaderClass in expected then Ok(Some(loaderClass))
        else Ok(None)
  }

  // ---------------------------------------------------------------------------
  // The configured descriptor locations

  /** The default delimiters of commons-text `StringTokenizer`. */
  predicate IsDelimiter(c: char) {
    c == ' ' || c == '\t' || c == '\n' || c == '\r' || c == '\U{C}'
  }

  predicate Token(t: string) {
    t != "" && forall j :: 0 <= j < |t| ==> !IsDelimiter(t[j])
  }

  /** `StringTokenizer.getTokenArray`: the maximal runs of non-delimiters, empty tokens dropped. */
  function Tokens(s: string): (r: seq<string>)
    ensures forall k :: 0 <= k < |r| ==> Token(r[k])
  {
    TokensFrom(s, "")
  }

  function TokensFrom(s: string, current: string): (r: seq<string>)
    requires forall j :: 0 <= j < |current| ==> !IsDelimiter(current[j])
    ensures forall k :: 0 <= k < |r| ==> Token(r[k])
    decreases |s|
  {
    var pending := if current == "" then [] else [current];
    if s == [] then pending
    else if IsDelimiter(s[0]) then pending + TokensFrom(s[1..], "")
    else TokensFrom(s[1..], current + [s[0]])
  }

  /** Separating tokens by single spaces and reading them back gives the same tokens. */
  lemma {:induction false} TokensOfSpaced(tokens: seq<string>)
    requires forall k :: 0 <= k < |tokens| ==> Token(tokens[k])
    ensures Tokens(Spaced(tokens)) == tokens
  {
    TokensFromSpaced(tokens, "");
    if tokens != [] {
      assert "" + tokens[0] == tokens[0];
      assert [tokens[0]] + tokens[1..] == tokens;
    }
  }

  function Spaced(tokens: seq<string>): string {
    if tokens == [] then "" else tokens[0] + (if |tokens| == 1 then "" else " " + Spaced(tokens[1..]))
  }

  lemma {:induction false} TokensFromSpaced(tokens: seq<string>, current: string)
    requires forall j :: 0 <= j < |current| ==> !IsDelimiter(current[j])
    requires forall k :: 0 <= k < |tokens| ==> Token(tokens[k])
    ensures tokens != [] ==> TokensFrom(Spaced(tokens), current) == [current + tokens[0]] + tokens[1..]
    decreases |tokens|, 0
  {
    if tokens != [] {
      TokensFromWord(tokens[0], current, if |tokens| == 1 then "" else " " + Spaced(tokens[1..]));
      if |tokens| > 1 {
        TokensFromSpaced(tokens[1..], "");
        assert ("" + tokens[1]) == tokens[1];
        assert [tokens[1]] + tokens[2..] == tokens[1..];
      }
    }
  }

  /** A run of non-delimiters is absorbed into the current token. */
  lemma {:induction false} TokensFromWord(w: string, current: string, rest: string)
    requires forall j :: 0 <= j < |current| ==> !IsDelimiter(current[j])
    requires forall j :: 0 <= j < |w| ==> !IsDelimiter(w[j])
    ensures TokensFrom(w + rest, current) == TokensFrom(rest, current + w)
    decreases |w|
  {
    if w != [] {
      assert (w + rest)[0] == w[0] && (w + rest)[1..] == w[1..] + rest;
      assert !IsDelimiter(w[0]);
      var next := current + [w[0]];
      assert forall j :: 0 <= j < |next| ==> !IsDelimiter(next[j]);
      assert forall j :: 0 <= j < |w[1..]| ==> !IsDelimiter(w[1..][j]);
      assert TokensFrom(w + rest, current) == TokensFrom(w[1..] + rest, next);
      TokensFromWord(w[1..], next, rest);
      assert current + [w[0]] + w[1..] == current + w;
    } else {
      assert w + rest == rest && current + w == current;
    }
  }

  /**
   * `_loadWindowLoaders` on the registered window and fragment loaders: the
   * loaders afterwards and the outcome.
   */
  function LoadLoaders(root: Node, cp: ClassPath, windowLoader: Option<string>, fragmentLoader: Option<string>)
    : (Option<string>, Option<string>, Result<(), UiError>)
  {
    var w := LoadWindowLoader(root, WindowLoaderElement, cp, cp.windowLoaders);
    if w.Err? then (windowLoader, fragmentLoader, Err(w.error))
    else
      var windowLoader' := if w.value.Some? then w.value else windowLoader;
      var f := LoadWindowLoader(root, FragmentLoaderElement, cp, cp.fragmentLoaders);
      if f.Err? then (windowLoader', fragmentLoader, Err(f.error))
      else (windowLoader', if f.value.Some? then f.value else fragmentLoader, Ok(()))
  }

  /**
   * A suitable window loader replaces the one registered even when the fragment
   * loader then fails; a missing element keeps the registered loader; a failing
   * window loader leaves both untouched and the fragment loader unread.
   */
  lemma LoadLoadersEffect(root: Node, cp: ClassPath, windowLoader: Option<string>, fragmentLoader: Option<string>)
    ensures var r := LoadLoaders(root, cp, windowLoader, fragmentLoader);
            var w := LoadWindowLoader(root, WindowLoaderElement, cp, cp.windowLoaders);
            var f := LoadWindowLoader(root, FragmentLoaderElement, cp, cp.fragmentLoaders);
            (ChildElement(root, WindowLoaderElement).None? && ChildElement(root, FragmentLoaderElement).None? ==>
              r == (windowLoader, fragmentLoader, Ok(()))) &&
            (w.Err? ==> r == (windowLoader, fragmentLoader, Err(w.error))) &&
            (w.Ok? && w.value.Some? ==> r.0 == w.value && r.0.value in cp.windowLoaders) &&
            (w.Ok? && f.Ok? && f.value.Some? ==> r.1 == f.value && r.1.value in cp.fragmentLoaders) &&
            (r.2.Ok? <==> w.Ok? && f.Ok?)
  {
  }

  /** What the registration writes: `WebUiComponents` and the loaders of `LayoutLoaderConfig`. */
  datatype Registries = Registries(
    components: map<string, string>,   // component name to class
    loaders: map<string, string>,      // tag to component loader class
    windowLoader: Option<string>,
    fragmentLoader: Option<string>)

  /** The `<component>` entries of a descriptor registered, then its window and fragment loaders. */
  function RegisterParsed(entries: seq<ComponentEntry>, root: Node, cp: ClassPath, s: Registries)
    : (Registries, Result<(), UiError>)
  {
    var reg := RegisterEntries(entries, cp, s.components, s.loaders);
    if reg.2.Some? then (s.(components := reg.0, loaders := reg.1), Err(reg.2.value))
    else
      var l := LoadLoaders(root, cp, s.windowLoader, s.fragmentLoader);
      (Registries(reg.0, reg.1, l.0, l.1), l.2)
  }

  /** `_registerComponent`: the registries after one descriptor, and its outcome. */
  function RegisterDescriptor(root: Node, cp: ClassPath, s: Registries): (Registries, Result<(), UiError>) {
    RegisterParsed(Entries(ChildElements(root, "component")), root, cp, s)
  }

  /**
   * A ClassNotFound failure of a descriptor comes exactly from one of its
   * `<component>` entries, and then the window and fragment loaders stay; the
   * entries are registered whether or not the loaders fail.
   */
  lemma RegisterParsedFailure(entries: seq<ComponentEntry>, root: Node, cp: ClassPath, s: Registries)
    ensures var r := RegisterParsed(entries, root, cp, s);
            var reg := RegisterEntries(entries, cp, s.components, s.loaders);
            r.0.components == reg.0 && r.0.loaders == reg.1 &&
            (r.1.Err? && r.1.error.ClassNotFound? <==> reg.2.Some?) &&
            (reg.2.Some? ==> r.0.windowLoader == s.windowLoader && r.0.fragmentLoader == s.fragmentLoader)
  {
    RegisterEntriesFailure(entries, cp, s.components, s.loaders);
  }

  /** A descriptor without `<component>`, window or fragment loader elements changes nothing. */
  lemma EmptyDescriptor(root: Node, cp: ClassPath, s: Registries)
    requires ChildElements(root, "component") == []
    requires ChildElement(root, WindowLoaderElement).None? && ChildElement(root, FragmentLoaderElement).None?
    ensures RegisterDescriptor(root, cp, s) == (s, Ok(()))
  {
  }

  /** Every failure while registering elements is a ClassNotFound. */
  lemma {:induction false} RegisterEntriesFailure(entries: seq<ComponentEntry>, cp: ClassPath,
                                                  components: map<string, string>, loaders: map<string, string>)
    ensures var r := RegisterEntries(entries, cp, components, loaders);
            r.2.Some? ==> r.2.value.ClassNotFound?
  {
    if entries != [] {
      RegisterEntriesFailure(entries[..|entries| - 1], cp, components, loaders);
    }
  }

  /** The registration of one parsed descriptor, as the loops over descriptors see it. */
  type Registration = (Node, Registries) -> (Registries, Result<(), UiError>)

  function Registering(cp: ClassPath): Registration {
    (root, s) => RegisterDescriptor(root, cp, s)
  }

  /** A registration that never reports a configuration location itself. */
  ghost predicate NamesNoLocation(register: Registration) {
    forall root, s :: register(root, s).1.Err? ==> !register(root, s).1.error.UnableToLoadConfig?
  }

  /** A descriptor fails only on a class or a loader element, never naming a configuration location. */
  lemma RegisteringNamesNoLocation(cp: ClassPath)
    ensures NamesNoLocation(Registering(cp))
  {
    forall root, s ensures RegisterDescriptor(root, cp, s).1.Err? ==> !RegisterDescriptor(root, cp, s).1.error.UnableToLoadConfig? {
      RegisterParsedNamesNoLocation(Entries(ChildElements(root, "component")), root, cp, s);
    }
  }

  lemma RegisterParsedNamesNoLocation(entries: seq<ComponentEntry>, root: Node, cp: ClassPath, s: Registries)
    ensures var r := RegisterParsed(entries, root, cp, s);
            r.1.Err? ==> !r.1.error.UnableToLoadConfig?
  {
    RegisterEntriesFailure(entries, cp, s.components, s.loaders);
  }

  /** `_registerComponents`: the descriptors in order, until one fails. */
  function RegisterDescriptors(descriptors: seq<Node>, register: Registration, s: Registries)
    : (Registries, Result<(), UiError>)
  {
    if descriptors == [] then (s, Ok(()))
    else
      var prev := RegisterDescriptors(descriptors[..|descriptors| - 1], register, s);
      if prev.1.Err? then prev else register(descriptors[|descriptors| - 1], prev.0)
  }

  /** Once a descriptor has failed, the descriptors after it are not read. */
  lemma {:induction false} DescriptorsStopAtFailure(descriptors: seq<Node>, register: Registration, s: Registries, i: nat)
    requires i <= |descriptors| && RegisterDescriptors(descriptors[..i], register, s).1.Err?
    ensures RegisterDescriptors(descriptors, register, s) == RegisterDescriptors(descriptors[..i], register, s)
    decreases |descriptors| - i
  {
    if i < |descriptors| {
      var longer := descriptors[..|descriptors| - 1];
      assert longer[..i] == descriptors[..i];
      DescriptorsStopAtFailure(longer, register, s, i);
    } else {
      assert descriptors[..i] == descriptors;
    }
  }

  /**
   * The loop of `_registerAppComponents` over the configured locations: a
   * missing resource is skipped, and a ClassNotFound failure is reported as
   * the location's configuration being unloadable.
   */
  function RegisterLocations(locations: seq<string>, resources: string -> Option<Node>, register: Registration,
                             s: Registries): (Registries, Result<(), UiError>)
  {
    if locations == [] then (s, Ok(()))
    else
      var prev := RegisterLocations(locations[..|locations| - 1], resources, register, s);
      var location := locations[|locations| - 1];
      if prev.1.Err? || resources(location).None? then prev
      else
        var d := register(resources(location).value, prev.0);
        (d.0, if d.1.Err? && d.1.error.ClassNotFound? then Err(UnableToLoadConfig(location)) else d.1)
  }

  /** One more location: skipped after a failure or when its resource is missing, otherwise registered. */
  lemma LocationStep(locations: seq<string>, resources: string -> Option<Node>, register: Registration,
                     s: Registries, i: nat)
    requires i < |locations|
    ensures var prev := RegisterLocations(locations[..i], resources, register, s);
            var location := locations[i];
            RegisterLocations(locations[..i + 1], resources, register, s) ==
              if prev.1.Err? || resources(location).None? then prev
              else
                var d := register(resources(location).value, prev.0);
                (d.0, if d.1.Err? && d.1.error.ClassNotFound? then Err(UnableToLoadConfig(location)) else d.1)
  {
    assert locations[..i + 1][..i] == locations[..i];
  }

  /** Once a location has failed, the locations after it are not read. */
  lemma {:induction false} LocationsStopAtFailure(locations: seq<string>, resources: string -> Option<Node>,
                                                  register: Registration, s: Registries, i: nat)
    requires i <= |locations| && RegisterLocations(locations[..i], resources, register, s).1.Err?
    ensures RegisterLocations(locations, resources, register, s) == RegisterLocations(locations[..i], resources, register, s)
    decreases |locations| - i
  {
    if i < |locations| {
      var longer := locations[..|locations| - 1];
      assert longer[..i] == locations[..i];
      LocationsStopAtFailure(longer, resources, register, s, i);
    } else {
      assert locations[..i] == locations;
    }
  }

  /**
   * Locations whose resources are all missing change nothing; a failure names
   * one of the locations as unloadable, or is a loader failure, never a bare
   * ClassNotFound.
   */
  lemma {:induction false} RegisterLocationsOutcome(locations: seq<string>, resources: string -> Option<Node>,
                                                    register: Registration, s: Registries)
    requires NamesNoLocation(register)
    ensures var r := RegisterLocations(locations, resources, register, s);
            ((forall k :: 0 <= k < |locations| ==> resources(locations[k]).None?) ==> r == (s, Ok(()))) &&
            (r.1.Err? ==> !r.1.error.ClassNotFound?) &&
            (r.1.Err? && r.1.error.UnableToLoadConfig? ==> r.1.error.location in locations)
  {
    if locations != [] {
      var init := locations[..|locations| - 1];
      var location := locations[|locations| - 1];
      RegisterLocationsOutcome(init, resources, register, s);
      var prev := RegisterLocations(init, resources, register, s);
      assert forall k :: 0 <= k < |init| ==> init[k] == locations[k];
      if prev.1.Err? && prev.1.error.UnableToLoadConfig? {
        var k :| 0 <= k < |init| && init[k] == prev.1.error.location;
        assert locations[k] == prev.1.error.location;
      }
      assert location in locations;
    }
  }

  /**
   * `init`: application components first, then the descriptors of add-on jars,
   * then those of the web modules; the first failure ends the registration.
   */
  function Initialize(configNames: Option<string>, resources: string -> Option<Node>,
                      jarDescriptors: seq<Node>, webDescriptors: seq<Node>, cp: ClassPath, s: Registries)
    : (Registries, Result<(), UiError>)
  {
    var app := if IsEmpty(configNames) then (s, Ok(()))
               else RegisterLocations(Tokens(configNames.value), resources, Registering(cp), s);
    if app.1.Err? then app
    else
      var jars := RegisterDescriptors(jarDescriptors, Registering(cp), app.0);
      if jars.1.Err? then jars else RegisterDescriptors(webDescriptors, Registering(cp), jars.0)
  }

  /** With no configured locations and no descriptors nothing is registered. */
  lemma InitializeNothing(configNames: Option<string>, resources: string -> Option<Node>, cp: ClassPath, s: Registries)
    requires IsEmpty(configNames)
    ensures Initialize(configNames, resources, [], [], cp, s) == (s, Ok(()))
  {
  }

  /** A failing application configuration keeps every descriptor on the class path from being read. */
  lemma InitializeStopsAtAppFailure(configNames: Option<string>, resources: string -> Option<Node>,
                                    jarDescriptors: seq<Node>, webDescriptors: seq<Node>, cp: ClassPath, s: Registries)
    requires !IsEmpty(configNames) && RegisterLocations(Tokens(configNames.value), resources, Registering(cp), s).1.Err?
    ensures Initialize(configNames, resources, jarDescriptors, webDescriptors, cp, s) ==
            RegisterLocations(Tokens(configNames.value), resources, Registering(cp), s)
  {
  }

  class ComponentRegistry {
    /** `WebUiComponents`: component name to class. */
    var components: map<string, string>
    /** `LayoutLoaderConfig` tag loaders: tag to loader class. */
    var loaders: map<string, string>
    var windowLoader: Option<string>
    var fragmentLoader: Option<string>

    constructor()
      ensures components == map[] && loaders == map[] && windowLoader.None? && fragmentLoader.None?
    {
      components := map[];
      loaders := map[];
      windowLoader := None;
      fragmentLoader := None;
    }

    /** `_loadWindowLoaders`: each suitable loader replaces the registered one; the window loader comes first. */
    method LoadWindowLoaders(root: Node, cp: ClassPath) returns (r: Result<(), UiError>)
      modifies `windowLoader, `fragmentLoader
      ensures (windowLoader, fragmentLoader, r) == LoadLoaders(root, cp, old(windowLoader), old(fragmentLoader))
    {
      var w := LoadWindowLoader(root, WindowLoaderElement, cp, cp.windowLoaders);
      if w.Err? {
        return Err(w.error);
      }
      if w.value.Some? {
        windowLoader := w.value;
      }
      var f := LoadWindowLoader(root, FragmentLoaderElement, cp, cp.fragmentLoaders);
      if f.Err? {
        return Err(f.error);
      }
      if f.value.Some? {
        fragmentLoader := f.value;
      }
      return Ok(());
    }

    /** The body of the `<component>` loop of `_registerComponent`, `continue` being a return. */
    method RegisterEntryFields(e: ComponentEntry, cp: ClassPath) returns (failure: Option<UiError>)
      modifies `components, `loaders
      ensures (components, loaders, failure) == RegisterEntry(e, cp, old(components), old(loaders))
    {
      if e.name == "" && e.tag == "" {
        return None;
      }
      if e.loaderClass == "" && e.componentClass == "" {
        return None;
      }
      if e.name != "" && e.componentClass != "" {
        if e.componentClass !in cp.loadable {
          return Some(ClassNotFound(e.componentClass));
        }
        if e.componentClass in cp.components {
          components := components[e.name := e.componentClass];
        }
      }
      if e.tag != "" && e.loaderClass != "" {
        if e.loaderClass !in cp.loadable {
          return Some(ClassNotFound(e.loaderClass));
        }
        if e.loaderClass in cp.componentLoaders {
          loaders := loaders[e.tag := e.loaderClass];
        }
      }
      return None;
    }

    function Snapshot(): Registries
      reads this
    {
      Registries(components, loaders, windowLoader, fragmentLoader)
    }

    /** The `<component>` loop of `_registerComponent` on the entries read, in document order. */
    method RegisterEntryList(entries: seq<ComponentEntry>, cp: ClassPath) returns (failure: Option<UiError>)
      modifies `components, `loaders
      ensures (components, loaders, failure) == RegisterEntries(entries, cp, old(components), old(loaders))
    {
      for i := 0 to |entries|
        invariant RegisterEntries(entries[..i], cp, old(components), old(loaders)) == (components, loaders, None)
      {
        assert entries[..i + 1][..i] == entries[..i];
        failure := RegisterEntryFields(entries[i], cp);
        if failure.Some? {
          RegisterStopsAtFailure(entries, cp, old(components), old(loaders), i + 1);
          return;
        }
      }
      assert entries[..|entries|] == entries;
      return None;
    }

    /**
     * `_registerComponent` on a parsed descriptor: the `<component>` elements in
     * document order, then, unless one of them failed, the window and fragment loaders.
     */
    method RegisterComponent(root: Node, cp: ClassPath) returns (r: Result<(), UiError>)
      modifies this
      ensures (Snapshot(), r) == RegisterDescriptor(root, cp, old(Snapshot()))
    {
      var failure := RegisterEntryList(Entries(ChildElements(root, "component")), cp);
      if failure.Some? {
        return Err(failure.value);
      }
      r := LoadWindowLoaders(root, cp);
    }

    /**
     * `_registerAppComponents`: an unset or empty `cuba.web.componentsConfig`
     * registers nothing; otherwise the configured locations are read in order.
     */
    method RegisterAppComponents(configNames: Option<string>, resources: string -> Option<Node>, cp: ClassPath)
      returns (r: Result<(), UiError>)
      modifies this
      ensures IsEmpty(configNames) ==> r == Ok(()) && unchanged(this)
      ensures !IsEmpty(configNames) ==>
        (Snapshot(), r) == RegisterLocations(Tokens(configNames.value), resources, Registering(cp), old(Snapshot()))
    {
      if IsEmpty(configNames) {
        return Ok(());
      }
      var locations := Tokens(configNames.value);
      for i := 0 to |locations|
        invariant (Snapshot(), Ok(())) == RegisterLocations(locations[..i], resources, Registering(cp), old(Snapshot()))
      {
        LocationStep(locations, resources, Registering(cp), old(Snapshot()), i);
        var resource := resources(locations[i]);
        if resource.Some? {
          ghost var before := Snapshot();
          var registered := RegisterComponent(resource.value, cp);
          assert Registering(cp)(resource.value, before) == (Snapshot(), registered);
          if registered.Err? {
            r := if registered.error.ClassNotFound? then Err(UnableToLoadConfig(locations[i])) else registered;
            assert RegisterLocations(locations[..i + 1], resources, Registering(cp), old(Snapshot())) == (Snapshot(), r);
            LocationsStopAtFailure(locations, resources, Registering(cp), old(Snapshot()), i + 1);
            return;
          }
        }
      }
      assert locations[..|locations|] == locations;
      return Ok(());
    }

    /** `_registerComponents`: every descriptor found on the class path, in order, until one fails. */
    method RegisterComponents(descriptors: seq<Node>, cp: ClassPath) returns (r: Result<(), UiError>)
      modifies this
      ensures (Snapshot(), r) == RegisterDescriptors(descriptors, Registering(cp), old(Snapshot()))
    {
      for i := 0 to |descriptors|
        invariant (Snapshot(), Ok(())) == RegisterDescriptors(descriptors[..i], Registering(cp), old(Snapshot()))
      {
        assert descriptors[..i + 1][..i] == descriptors[..i];
        r := RegisterComponent(descriptors[i], cp);
        if r.Err? {
          DescriptorsStopAtFailure(descriptors, Registering(cp), old(Snapshot()), i + 1);
          return r;
        }
      }
      assert descriptors[..|descriptors|] == descriptors;
      return Ok(());
    }

    /** `init`: the first failure is logged and ends the registration. */
    method Init(configNames: Option<string>, resources: string -> Option<Node>,
                jarDescriptors: seq<Node>, webDescriptors: seq<Node>, cp: ClassPath) returns (logged: Option<UiError>)
      modifies this
      ensures var i := Initialize(configNames, resources, jarDescriptors, webDescriptors, cp, old(Snapshot()));
              Snapshot() == i.0 && logged == (if i.1.Err? then Some(i.1.error) else None)
    {
      var r := RegisterAppComponents(configNames, resources, cp);
      if r.Err? {
        return Some(r.error);
      }
      r := RegisterComponents(jarDescriptors, cp);
      if r.Err? {
        return Some(r.error);
      }
      r := RegisterComponents(webDescriptors, cp);
      if r.Err? {
        return Some(r.error);
      }
      return None;
    }
  }
}
