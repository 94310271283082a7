/**
 * Loading of a `<screen>` facet from its XML element (`ScreenFacetProvider`):
 * the `id`, `screen` and `openMode` attributes and the `<properties>` passed
 * to the opened screen. `OpenMode.valueOf` is membership in the given set of
 * open-mode names.
 */
module ScreenFacets {
  import opened Wrappers
  import opened JavaStrings
  import opened Xml

  datatype PropertyType = Value | Reference

  /** `UiControllerProperty`. */
  datatype ControllerProperty = ControllerProperty(name: string, value: string, kind: PropertyType)

  datatype FacetError =
    | UnknownOpenMode(openMode: string)      // IllegalArgumentException from `OpenMode.valueOf`
    | EmptyPropertyName                      // GuiDevelopmentException
    | ValueAndReference(property: string)    // GuiDevelopmentException
    | NoValueOrReference(property: string)   // GuiDevelopmentException

  /** The body of the `loadProperties` loop on one `<property>` element. */
  function ReadProperty(property: Node): Result<ControllerProperty, FacetError> {
    var name := AttributeValue(property, "name");
    var value := AttributeValue(property, "value");
    var ref := AttributeValue(property, "ref");
    if IsEmpty(name) then Err(EmptyPropertyName)
    else if !IsEmpty(value) && !IsEmpty(ref) then Err(ValueAndReference(name.value))
    else if !IsEmpty(value) then Ok(ControllerProperty(name.value, value.value, Value))
    else if !IsEmpty(ref) then Ok(ControllerProperty(name.value, ref.value, Reference))
    else Err(NoValueOrReference(name.value))
  }

  /**
   * A property is read exactly when it has a name and exactly one of a value and
   * a reference; a value gives a VALUE entry, a reference a REFERENCE entry.
   */
  lemma ReadPropertyOutcome(property: Node)
    ensures var r := ReadProperty(property);
            var name := AttributeValue(property, "name");
            var value := AttributeValue(property, "value");
            var ref := AttributeValue(property, "ref");
            (IsEmpty(name) ==> r == Err(EmptyPropertyName)) &&
            (r.Ok? <==> !IsEmpty(name) && IsEmpty(value) != IsEmpty(ref)) &&
            (r.Ok? ==> r.value.name == name.value && r.value.name != "" &&
                       (r.value.kind == Value <==> !IsEmpty(value)) &&
                       r.value.value == (if !IsEmpty(value) then value.value else ref.value)) &&
            (!IsEmpty(name) && !IsEmpty(value) && !IsEmpty(ref) ==> r == Err(ValueAndReference(name.value))) &&
            (!IsEmpty(name) && IsEmpty(value) && IsEmpty(ref) ==> r == Err(NoValueOrReference(name.value)))
  {
  }

  /** The `<property>` elements read in document order, up to the first that fails. */
  function ReadProperties(elements: seq<Node>): Result<seq<ControllerProperty>, FacetError> {
    if elements == [] then Ok([])
    else
      var prev := ReadProperties(elements[..|elements| - 1]);
      if prev.Err? then prev
      else
        var p := ReadProperty(elements[|elements| - 1]);
        if p.Err? then Err(p.error) else Ok(prev.value + [p.value])
  }

  /** The properties are read when every element is, one entry per element in document order. */
  lemma {:induction false} ReadPropertiesOk(elements: seq<Node>)
    ensures var r := ReadProperties(elements);
            (r.Ok? <==> forall k :: 0 <= k < |elements| ==> ReadProperty(elements[k]).Ok?) &&
            (r.Ok? ==> |r.value| == |elements| &&
                       forall k :: 0 <= k < |elements| ==> r.value[k] == ReadProperty(elements[k]).value)
  {
    if elements != [] {
      var n := |elements| - 1;
      var init := elements[..n];
      ReadPropertiesOk(init);
      assert forall k :: 0 <= k < n ==> init[k] == elements[k];
    }
  }

  /** A failure is that of the first failing element. */
  lemma {:induction false} ReadPropertiesErr(elements: seq<Node>)
    ensures var r := ReadProperties(elements);
            r.Err? ==> exists k :: 0 <= k < |elements| && ReadProperty(elements[k]).Err? &&
                                   r.error == ReadProperty(elements[k]).error &&
                                   forall j :: 0 <= j < k ==> ReadProperty(elements[j]).Ok?
  {
    if elements != [] {
      var n := |elements| - 1;
      var init := elements[..n];
      ReadPropertiesOk(init);
      ReadPropertiesErr(init);
      assert forall k :: 0 <= k < n ==> init[k] == elements[k];
      var prev := ReadProperties(init);
      if prev.Err? {
        var k :| 0 <= k < n && ReadProperty(init[k]).Err? && prev.error == ReadProperty(init[k]).error &&
                 forall j :: 0 <= j < k ==> ReadProperty(init[j]).Ok?;
        assert ReadProperty(elements[k]).Err? && forall j :: 0 <= j < k ==> ReadProperty(elements[j]).Ok?;
      } else {
        assert forall j :: 0 <= j < n ==> ReadProperty(elements[j]).Ok?;
      }
    }
  }

  /** `loadProperties`: the list given to `setProperties`, None when it is not called. */
  function PropertiesToSet(element: Node): Result<Option<seq<ControllerProperty>>, FacetError> {
    match ChildElement(element, "properties")
    case None => Ok(None)
    case Some(propsEl) =>
      var elements := ChildElements(propsEl, "property");
      if elements == [] then Ok(None)
      else
        var r := ReadProperties(elements);
        if r.Err? then Err(r.error) else Ok(Some(r.value))
  }

  /** Without a `<properties>` element, or without `<property>` children, `setProperties` is not called. */
  lemma NoPropertiesNotSet(element: Node)
    requires ChildElement(element, "properties").None? ||
             ChildElements(ChildElement(element, "properties").value, "property") == []
    ensures PropertiesToSet(element) == Ok(None)
  {
  }

  /** The properties set are never an empty list, and each has a name. */
  lemma PropertiesSetAreNamed(element: Node)
    ensures var r := PropertiesToSet(element);
            r.Ok? && r.value.Some? ==>
              r.value.value != [] && forall k :: 0 <= k < |r.value.value| ==> r.value.value[k].name != ""
  {
    var props := ChildElement(element, "properties");
    if props.Some? {
      var elements := ChildElements(props.value, "property");
      ReadPropertiesOk(elements);
      forall k | 0 <= k < |elements| {
        ReadPropertyOutcome(elements[k]);
      }
    }
  }

  /** `WebScreenFacet`, as far as the provider sets it. */
  class ScreenFacet {
    var id: Option<string>
    var screenId: Option<string>
    var launchMode: Option<string>
    /** None until `setProperties` is called. */
    var properties: Option<seq<ControllerProperty>>

    constructor()
      ensures id.None? && screenId.None? && launchMode.None? && properties.None?
    {
      id := None;
      screenId := None;
      launchMode := None;
      properties := None;
    }

    /** `loadId`: a non-empty `id` attribute replaces the id. */
    method LoadId(element: Node)
      modifies `id
      ensures var a := AttributeValue(element, "id");
              id == if IsNotEmpty(a) then a else old(id)
    {
      var a := AttributeValue(element, "id");
      if IsNotEmpty(a) {
        id := a;
      }
    }

    /** `loadScreen`: a non-empty `screen` attribute replaces the screen id. */
    method LoadScreen(element: Node)
      modifies `screenId
      ensures var a := AttributeValue(element, "screen");
              screenId == if IsNotEmpty(a) then a else old(screenId)
    {
      var a := AttributeValue(element, "screen");
      if IsNotEmpty(a) {
        screenId := a;
      }
    }

    /** `loadOpenMode`: a non-empty `openMode` must name an open mode. */
    method LoadOpenMode(element: Node, openModes: set<string>) returns (r: Result<(), FacetError>)
      modifies `launchMode
      ensures var a := AttributeValue(element, "openMode");
              (IsEmpty(a) ==> r == Ok(()) && launchMode == old(launchMode)) &&
              (IsNotEmpty(a) && a.value !in openModes ==> r == Err(UnknownOpenMode(a.value)) && launchMode == old(launchMode)) &&
              (IsNotEmpty(a) && a.value in openModes ==> r == Ok(()) && launchMode == a)
    {
      var a := AttributeValue(element, "openMode");
      if IsNotEmpty(a) {
        if a.value !in openModes {
          return Err(UnknownOpenMode(a.value));
        }
        launchMode := a;
      }
      return Ok(());
    }

    /** `loadProperties`: the list is built in document order and set only when complete. */
    method LoadProperties(element: Node) returns (r: Result<(), FacetError>)
      modifies `properties
      ensures var p := PropertiesToSet(element);
              (p.Err? ==> r == Err(p.error) && properties == old(properties)) &&
              (p.Ok? ==> r == Ok(()) && properties == if p.value.Some? then p.value else old(properties))
    {
      var propsEl := ChildElement(element, "properties");
      if propsEl.None? {
        return Ok(());
      }
      var elements := ChildElements(propsEl.value, "property");
      if elements == [] {
        return Ok(());
      }
      var list: seq<ControllerProperty> := [];
      for i := 0 to |elements|
        invariant ReadProperties(elements[..i]) == Ok(list)
      {
        assert elements[..i + 1][..i] == elements[..i];
        var property := ReadProperty(elements[i]);
        if property.Err? {
          PropertiesStopAtFailure(elements, i + 1);
          return Err(property.error);
        }
        list := list + [property.value];
      }
      assert elements[..|elements|] == elements;
      properties := Some(list);
      return Ok(());
    }

    /** `loadFromXml`: id, screen, open mode, then properties; an unknown open mode stops before the properties. */
    method LoadFromXml(element: Node, openModes: set<string>) returns (r: Result<(), FacetError>)
      modifies this
      ensures var a := AttributeValue(element, "id");
              id == if IsNotEmpty(a) then a else old(id)
      ensures var a := AttributeValue(element, "screen");
              screenId == if IsNotEmpty(a) then a else old(screenId)
      ensures var a := AttributeValue(element, "openMode");
              var p := PropertiesToSet(element);
              (IsNotEmpty(a) && a.value !in openModes ==>
                r == Err(UnknownOpenMode(a.value)) && launchMode == old(launchMode) && properties == old(properties)) &&
              (!(IsNotEmpty(a) && a.value !in openModes) ==>
                launchMode == (if IsNotEmpty(a) then a else old(launchMode)) &&
                (p.Err? ==> r == Err(p.error) && properties == old(properties)) &&
                (p.Ok? ==> r == Ok(()) && properties == if p.value.Some? then p.value else old(properties)))
    {
      LoadId(element);
      LoadScreen(element);
      r := LoadOpenMode(element, openModes);
      if r.Err? {
        return;
      }
      r := LoadProperties(element);
    }
  }

  /** Once a property has failed, the properties after it are not read. */
  lemma {:induction false} PropertiesStopAtFailure(elements: seq<Node>, i: nat)
    requires 0 < i <= |elements| && ReadProperties(elements[..i - 1]).Ok? && ReadProperty(elements[i - 1]).Err?
    ensures ReadProperties(elements) == Err(ReadProperty(elements[i - 1]).error)
    decreases |elements| - i
  {
    if i < |elements| {
      var longer := elements[..|elements| - 1];
      assert longer[..i - 1] == elements[..i - 1];
      assert longer[i - 1] == elements[i - 1];
      PropertiesStopAtFailure(longer, i);
    } else {
      assert elements[..i - 1] == elements[..|elements| - 1];
    }
  }
}
