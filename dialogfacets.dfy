/**
 * Loading of dialog facets from XML: the attribute loading shared by
 * `AbstractDialogFacetProvider` and `DialogFacetProvider`, the action/button
 * target of `AbstractDialogFacetProvider` (used by `OptionDialogFacetProvider`),
 * and the `<actions>` of `DialogFacetProvider` and `OptionDialogFacetProvider`,
 * whose action loading, resource strings and icon resolution are the same.
 *
 * The message bundle, the icon registry, the icon-name pattern and the theme
 * constants are given as a `Lookups` value; `valueOf` of the message-type and
 * content-mode enums is membership in a set of names.
 */
module DialogFacets {
  import opened Wrappers
  import opened JavaStrings
  import opened Xml

  datatype Lookups = Lookups(
    loadString: string -> string,              // `messageTools.loadString` in the frame's package
    isIconName: string -> bool,                // `Icons.ICON_NAME_REGEX` matches
    icons: string -> Option<string>,           // `icons.get`
    themeConstants: string -> Option<string>,  // `themeConstantsManager.getConstants().get`
    themePrefix: string,                       // `ThemeConstants.PREFIX`
    messageTypes: set<string>,                 // names of `Dialogs.MessageType`
    contentModes: set<string>)                 // names of `ContentMode`

  datatype DialogError =
    | UnknownMessageType(messageType: string)   // IllegalArgumentException from `valueOf`
    | UnknownContentMode(contentMode: string)   // IllegalArgumentException from `valueOf`
    | BothTargets(action: string, button: string)   // GuiDevelopmentException

  /** `Dialog.DialogAction` / `OptionDialog.DialogAction`. */
  datatype DialogAction = DialogAction(id: Option<string>, caption: Option<string>, description: Option<string>,
                                       icon: Option<string>, primary: bool)

  // ---------------------------------------------------------------------------
  // Resource strings and icons

  /** `loadResourceString`: null and "" are passed through, anything else is looked up. */
  function LoadResourceString(env: Lookups, s: Option<string>): (r: Option<string>)
  {
    if IsEmpty(s) then s else Some(env.loadString(s.value))
  }

  /** `loadThemeString`: a value with the theme prefix is replaced by the theme constant it names. */
  function LoadThemeString(env: Lookups, value: Option<string>): Option<string> {
    if value.Some? && StartsWith(value.value, env.themePrefix) then env.themeConstants(value.value[|env.themePrefix|..])
    else value
  }

  /**
   * `getIconPath`: an icon name goes through the icon registry; when that gives
   * nothing, the theme constant of a prefixed value, or the value itself, is
   * looked up as a resource string.
   */
  function GetIconPath(env: Lookups, icon: Option<string>): Option<string> {
    if IsEmpty(icon) then None
    else
      var iconPath := if env.isIconName(icon.value) then env.icons(icon.value) else None;
      if IsEmpty(iconPath) then LoadResourceString(env, LoadThemeString(env, icon)) else iconPath
  }

  /** A prefixed value becomes the theme constant named by the rest; any other value is unchanged. */
  lemma LoadThemeStringCases(env: Lookups, name: string)
    ensures LoadThemeString(env, Some(env.themePrefix + name)) == env.themeConstants(name)
    ensures !StartsWith(name, env.themePrefix) ==> LoadThemeString(env, Some(name)) == Some(name)
    ensures LoadThemeString(env, None) == None
  {
    assert (env.themePrefix + name)[..|env.themePrefix|] == env.themePrefix;
    assert (env.themePrefix + name)[|env.themePrefix|..] == name;
  }

  /**
   * The fallback chain of `getIconPath`: no icon gives null; a registered icon
   * name gives its path; otherwise a themed value resolves to its constant's
   * resource string (null when there is no such constant), and any other value
   * to its own resource string.
   */
  lemma IconPathChain(env: Lookups, icon: Option<string>)
    ensures IsEmpty(icon) ==> GetIconPath(env, icon) == None
    ensures IsNotEmpty(icon) && env.isIconName(icon.value) && IsNotEmpty(env.icons(icon.value)) ==>
              GetIconPath(env, icon) == env.icons(icon.value)
    ensures IsNotEmpty(icon) && !(env.isIconName(icon.value) && IsNotEmpty(env.icons(icon.value))) ==>
              GetIconPath(env, icon) ==
                (if StartsWith(icon.value, env.themePrefix)
                 then LoadResourceString(env, env.themeConstants(icon.value[|env.themePrefix|..]))
                 else Some(env.loadString(icon.value)))
    ensures (IsNotEmpty(icon) && StartsWith(icon.value, env.themePrefix) &&
             !(env.isIconName(icon.value) && IsNotEmpty(env.icons(icon.value))) &&
             env.themeConstants(icon.value[|env.themePrefix|..]).None?) ==> GetIconPath(env, icon) == None
  {
  }

  // ---------------------------------------------------------------------------
  // Actions

  /** `loadAction`: an `<action>` element as a dialog action. */
  function LoadAction(env: Lookups, element: Node): DialogAction {
    DialogAction(AttributeValue(element, "id"),
                 LoadResourceString(env, AttributeValue(element, "caption")),
                 LoadResourceString(env, AttributeValue(element, "description")),
                 GetIconPath(env, AttributeValue(element, "icon")),
                 ParseBoolean(AttributeValue(element, "primary")))
  }

  /** A missing `primary` attribute gives a non-primary action; otherwise it is primary exactly for "true", in any case. */
  lemma LoadActionPrimary(env: Lookups, element: Node)
    ensures AttributeValue(element, "primary").None? ==> !LoadAction(env, element).primary
    ensures AttributeValue(element, "primary").Some? ==>
              (LoadAction(env, element).primary <==> EqualsIgnoreCase(AttributeValue(element, "primary").value, "true"))
    ensures LoadAction(env, element).id == AttributeValue(element, "id")
  {
  }

  /** The stream map of `loadActions`. */
  function LoadActionList(env: Lookups, elements: seq<Node>): seq<DialogAction> {
    if elements == [] then [] else [LoadAction(env, elements[0])] + LoadActionList(env, elements[1..])
  }

  lemma {:induction false} LoadActionListMaps(env: Lookups, elements: seq<Node>)
    ensures |LoadActionList(env, elements)| == |elements|
    ensures forall k :: 0 <= k < |elements| ==> LoadActionList(env, elements)[k] == LoadAction(env, elements[k])
  {
    if elements != [] {
      LoadActionListMaps(env, elements[1..]);
    }
  }

  /** `loadActions`: the actions to set, None when there is no `<actions>` element. */
  function ActionsToSet(env: Lookups, element: Node): Option<seq<DialogAction>> {
    match ChildElement(element, "actions")
    case None => None
    case Some(actionsEl) => Some(LoadActionList(env, ChildElements(actionsEl, "action")))
  }

  /** Without `<actions>` nothing is set; with it there is one action per `<action>`, in document order. */
  lemma ActionsPerElement(env: Lookups, element: Node)
    ensures ChildElement(element, "actions").None? <==> ActionsToSet(env, element).None?
    ensures ChildElement(element, "actions").Some? ==>
              var elements := ChildElements(ChildElement(element, "actions").value, "action");
              var actions := ActionsToSet(env, element).value;
              |actions| == |elements| && forall k :: 0 <= k < |elements| ==> actions[k] == LoadAction(env, elements[k])
  {
    if ChildElement(element, "actions").Some? {
      LoadActionListMaps(env, ChildElements(ChildElement(element, "actions").value, "action"));
    }
  }

  // ---------------------------------------------------------------------------
  // The facet's settings

  /** What the providers set on the facet; None is the facet's own default. */
  datatype Settings = Settings(
    id: Option<string>, caption: Option<string>, message: Option<string>, messageType: Option<string>,
    width: Option<string>, height: Option<string>, contentMode: Option<string>,
    maximized: Option<bool>, modal: Option<bool>, styleName: Option<string>,
    actionTarget: Option<string>, buttonTarget: Option<string>, actions: Option<seq<DialogAction>>)

  /** A setter guarded by `isNotEmpty`: the attribute replaces the value only when non-empty. */
  function Override<T>(attribute: Option<string>, replacement: T, current: T): T {
    if IsNotEmpty(attribute) then replacement else current
  }

  /** `loadId`, `loadCaption` and `loadMessage`. */
  function TitleSettings(element: Node, env: Lookups, s: Settings): Settings {
    var id := AttributeValue(element, "id");
    var caption := AttributeValue(element, "caption");
    var message := AttributeValue(element, "message");
    s.(id := Override(id, id, s.id),
       caption := Override(caption, LoadResourceString(env, caption), s.caption),
       message := Override(message, LoadResourceString(env, message), s.message))
  }

  /** `loadWidth` and `loadHeight`. */
  function SizeSettings(element: Node, s: Settings): Settings {
    var width := AttributeValue(element, "width");
    var height := AttributeValue(element, "height");
    s.(width := Override(width, width, s.width),
       height := Override(height, height, s.height))
  }

  /** `loadMaximized`, `loadModal` and `loadStyleName`. */
  function WindowSettings(element: Node, s: Settings): Settings {
    var maximized := AttributeValue(element, "maximized");
    var modal := AttributeValue(element, "modal");
    var styleName := AttributeValue(element, "styleName");
    s.(maximized := Override(maximized, Some(ParseBoolean(maximized)), s.maximized),
       modal := Override(modal, Some(ParseBoolean(modal)), s.modal),
       styleName := Override(styleName, styleName, s.styleName))
  }

  /** A non-empty attribute that is not one of the names `valueOf` accepts. */
  predicate UnknownName(attribute: Option<string>, names: set<string>) {
    IsNotEmpty(attribute) && attribute.value !in names
  }

  /**
   * `loadId` to `loadStyleName`, in the order of `loadFromXml`; an unknown
   * message type or content mode ends the loading with the earlier settings made.
   */
  function CommonSettings(element: Node, env: Lookups, s: Settings): (Settings, Result<(), DialogError>) {
    var s1 := TitleSettings(element, env, s);
    var messageType := AttributeValue(element, "type");
    if UnknownName(messageType, env.messageTypes) then (s1, Err(UnknownMessageType(messageType.value)))
    else
      var s2 := SizeSettings(element, s1.(messageType := Override(messageType, messageType, s1.messageType)));
      var contentMode := AttributeValue(element, "contentMode");
      if UnknownName(contentMode, env.contentModes) then (s2, Err(UnknownContentMode(contentMode.value)))
      else (WindowSettings(element, s2.(contentMode := Override(contentMode, contentMode, s2.contentMode))), Ok(()))
  }

  /** `loadTarget`: an action target or a button target, never both. */
  function TargetSettings(element: Node, s: Settings): (Settings, Result<(), DialogError>) {
    var action := AttributeValue(element, "action");
    var button := AttributeValue(element, "button");
    if IsNotEmpty(action) && IsNotEmpty(button) then (s, Err(BothTargets(action.value, button.value)))
    else if IsNotEmpty(action) then (s.(actionTarget := action), Ok(()))
    else if IsNotEmpty(button) then (s.(buttonTarget := button), Ok(()))
    else (s, Ok(()))
  }

  /** `AbstractDialogFacetProvider.loadFromXml`. */
  function AbstractDialogSettings(element: Node, env: Lookups, s: Settings): (Settings, Result<(), DialogError>) {
    var c := CommonSettings(element, env, s);
    if c.1.Err? then c else TargetSettings(element, c.0)
  }

  /** The actions set by `loadActions`, when there is an `<actions>` element. */
  function WithActions(element: Node, env: Lookups, s: Settings): Settings {
    var actions := ActionsToSet(env, element);
    if actions.Some? then s.(actions := actions) else s
  }

  /** `DialogFacetProvider.loadFromXml`: the common attributes, then the actions. */
  function DialogSettings(element: Node, env: Lookups, s: Settings): (Settings, Result<(), DialogError>) {
    var c := CommonSettings(element, env, s);
    if c.1.Err? then c else (WithActions(element, env, c.0), Ok(()))
  }

  /** `OptionDialogFacetProvider.loadFromXml`: the superclass loading, then the actions. */
  function OptionDialogSettings(element: Node, env: Lookups, s: Settings): (Settings, Result<(), DialogError>) {
    var a := AbstractDialogSettings(element, env, s);
    if a.1.Err? then a else (WithActions(element, env, a.0), Ok(()))
  }

  /**
   * Both targets are an error that sets neither; a lone action or button target
   * is set and the other is left alone; without either nothing changes.
   */
  lemma TargetExclusive(element: Node, s: Settings)
    ensures var r := TargetSettings(element, s);
            var action := AttributeValue(element, "action");
            var button := AttributeValue(element, "button");
            (r.1.Err? <==> IsNotEmpty(action) && IsNotEmpty(button)) &&
            (r.1.Err? ==> r.0 == s) &&
            (IsNotEmpty(action) && !IsNotEmpty(button) ==> r.0 == s.(actionTarget := action)) &&
            (!IsNotEmpty(action) && IsNotEmpty(button) ==> r.0 == s.(buttonTarget := button)) &&
            (!IsNotEmpty(action) && !IsNotEmpty(button) ==> r.0 == s)
  {
  }

  /** Absent or empty attributes leave the facet's settings as they were. */
  lemma EmptyAttributesKeepSettings(element: Node, env: Lookups, s: Settings)
    ensures var r := CommonSettings(element, env, s).0;
            (IsEmpty(AttributeValue(element, "id")) ==> r.id == s.id) &&
            (IsEmpty(AttributeValue(element, "caption")) ==> r.caption == s.caption) &&
            (IsEmpty(AttributeValue(element, "message")) ==> r.message == s.message) &&
            (IsEmpty(AttributeValue(element, "type")) ==> r.messageType == s.messageType) &&
            (IsEmpty(AttributeValue(element, "width")) ==> r.width == s.width) &&
            (IsEmpty(AttributeValue(element, "height")) ==> r.height == s.height) &&
            (IsEmpty(AttributeValue(element, "contentMode")) ==> r.contentMode == s.contentMode) &&
            (IsEmpty(AttributeValue(element, "maximized")) ==> r.maximized == s.maximized) &&
            (IsEmpty(AttributeValue(element, "modal")) ==> r.modal == s.modal) &&
            (IsEmpty(AttributeValue(element, "styleName")) ==> r.styleName == s.styleName) &&
            r.actionTarget == s.actionTarget && r.buttonTarget == s.buttonTarget && r.actions == s.actions
  {
    var s1 := TitleSettings(element, env, s);
    var messageType := AttributeValue(element, "type");
    if !UnknownName(messageType, env.messageTypes) {
      var s2 := SizeSettings(element, s1.(messageType := Override(messageType, messageType, s1.messageType)));
      if !UnknownName(AttributeValue(element, "contentMode"), env.contentModes) {
        assert CommonSettings(element, env, s).0 ==
               WindowSettings(element, s2.(contentMode := Override(AttributeValue(element, "contentMode"),
                                                            AttributeValue(element, "contentMode"), s2.contentMode)));
      }
    }
  }

  /** When the loading gets through, every non-empty attribute is applied: `maximized` and `modal` parsed as booleans. */
  lemma NonEmptyAttributesApplied(element: Node, env: Lookups, s: Settings)
    requires CommonSettings(element, env, s).1.Ok?
    ensures var r := CommonSettings(element, env, s).0;
            var maximized := AttributeValue(element, "maximized");
            var modal := AttributeValue(element, "modal");
            (IsNotEmpty(AttributeValue(element, "id")) ==> r.id == AttributeValue(element, "id")) &&
            (IsNotEmpty(AttributeValue(element, "caption")) ==>
              r.caption == Some(env.loadString(AttributeValue(element, "caption").value))) &&
            (IsNotEmpty(AttributeValue(element, "type")) ==>
              r.messageType == AttributeValue(element, "type") && r.messageType.value in env.messageTypes) &&
            (IsNotEmpty(AttributeValue(element, "contentMode")) ==>
              r.contentMode == AttributeValue(element, "contentMode") && r.contentMode.value in env.contentModes) &&
            (IsNotEmpty(maximized) ==> (r.maximized == Some(true) <==> EqualsIgnoreCase(maximized.value, "true"))) &&
            (IsNotEmpty(modal) ==> (r.modal == Some(true) <==> EqualsIgnoreCase(modal.value, "true"))) &&
            (IsNotEmpty(AttributeValue(element, "styleName")) ==> r.styleName == AttributeValue(element, "styleName"))
  {
  }

  /**
   * An unknown message type fails after id, caption and message are set and
   * before anything else; an unknown content mode fails after the size.
   */
  lemma UnknownNamesFail(element: Node, env: Lookups, s: Settings)
    ensures var r := CommonSettings(element, env, s);
            var messageType := AttributeValue(element, "type");
            var contentMode := AttributeValue(element, "contentMode");
            (IsNotEmpty(messageType) && messageType.value !in env.messageTypes ==>
              r.1 == Err(UnknownMessageType(messageType.value)) &&
              r.0.messageType == s.messageType && r.0.width == s.width && r.0.maximized == s.maximized) &&
            (!(IsNotEmpty(messageType) && messageType.value !in env.messageTypes) &&
             IsNotEmpty(contentMode) && contentMode.value !in env.contentModes ==>
              r.1 == Err(UnknownContentMode(contentMode.value)) &&
              r.0.contentMode == s.contentMode && r.0.modal == s.modal && r.0.styleName == s.styleName) &&
            (r.1.Ok? <==> (!(IsNotEmpty(messageType) && messageType.value !in env.messageTypes) &&
                          !(IsNotEmpty(contentMode) && contentMode.value !in env.contentModes)))
  {
  }

  /** `DialogFacetProvider` loads no action or button target, even when the element names both. */
  lemma DialogHasNoTarget(element: Node, env: Lookups, s: Settings)
    ensures var r := DialogSettings(element, env, s);
            r.0.actionTarget == s.actionTarget && r.0.buttonTarget == s.buttonTarget &&
            r.1 == CommonSettings(element, env, s).1
  {
  }

  /**
   * `OptionDialogFacetProvider` keeps the exclusivity of the targets: naming
   * both fails before the actions are read; otherwise it ends as
   * `DialogFacetProvider` does, with the target set.
   */
  lemma OptionDialogExtendsAbstract(element: Node, env: Lookups, s: Settings)
    ensures var r := OptionDialogSettings(element, env, s);
            var action := AttributeValue(element, "action");
            var button := AttributeValue(element, "button");
            (CommonSettings(element, env, s).1.Ok? && IsNotEmpty(action) && IsNotEmpty(button) ==>
              r.1 == Err(BothTargets(action.value, button.value)) && r.0.actions == s.actions) &&
            (r.1.Ok? ==> DialogSettings(element, env, s).1.Ok? &&
                         r.0 == TargetSettings(element, DialogSettings(element, env, s).0).0)
  {
  }

  class DialogFacet {
    var id: Option<string>
    var caption: Option<string>
    var message: Option<string>
    var messageType: Option<string>
    var width: Option<string>
    var height: Option<string>
    var contentMode: Option<string>
    var maximized: Option<bool>
    var modal: Option<bool>
    var styleName: Option<string>
    var actionTarget: Option<string>
    var buttonTarget: Option<string>
    var actions: Option<seq<DialogAction>>

    constructor()
      ensures Current() == Settings(None, None, None, None, None, None, None, None, None, None, None, None, None)
    {
      id, caption, message, messageType := None, None, None, None;
      width, height, contentMode := None, None, None;
      maximized, modal, styleName := None, None, None;
      actionTarget, buttonTarget, actions := None, None, None;
    }

    function Current(): Settings
      reads this
    {
      Settings(id, caption, message, messageType, width, height, contentMode, maximized, modal, styleName,
               actionTarget, buttonTarget, actions)
    }

    /** `loadId`, `loadCaption` and `loadMessage`. */
    method LoadTitle(element: Node, env: Lookups)
      modifies `id, `caption, `message
      ensures Current() == TitleSettings(element, env, old(Current()))
    {
      var a := AttributeValue(element, "id");
      if IsNotEmpty(a) {
        id := a;
      }
      a := AttributeValue(element, "caption");
      if IsNotEmpty(a) {
        caption := LoadResourceString(env, a);
      }
      a := AttributeValue(element, "message");
      if IsNotEmpty(a) {
        message := LoadResourceString(env, a);
      }
    }

    /** `loadType`: a non-empty type must name a message type. */
    method LoadType(element: Node, env: Lookups) returns (r: Result<(), DialogError>)
      modifies `messageType
      ensures var a := AttributeValue(element, "type");
              (UnknownName(a, env.messageTypes) ==> r == Err(UnknownMessageType(a.value)) && messageType == old(messageType)) &&
              (!UnknownName(a, env.messageTypes) ==> r == Ok(()) && messageType == Override(a, a, old(messageType)))
    {
      var a := AttributeValue(element, "type");
      if IsNotEmpty(a) {
        if a.value !in env.messageTypes {
          return Err(UnknownMessageType(a.value));
        }
        messageType := a;
      }
      return Ok(());
    }

    /** `loadWidth` and `loadHeight`. */
    method LoadSize(element: Node)
      modifies `width, `height
      ensures Current() == SizeSettings(element, old(Current()))
    {
      var a := AttributeValue(element, "width");
      if IsNotEmpty(a) {
        width := a;
      }
      a := AttributeValue(element, "height");
      if IsNotEmpty(a) {
        height := a;
      }
    }

    /** `loadContentMode`: a non-empty content mode must name a content mode. */
    method LoadContentMode(element: Node, env: Lookups) returns (r: Result<(), DialogError>)
      modifies `contentMode
      ensures var a := AttributeValue(element, "contentMode");
              (UnknownName(a, env.contentModes) ==> r == Err(UnknownContentMode(a.value)) && contentMode == old(contentMode)) &&
              (!UnknownName(a, env.contentModes) ==> r == Ok(()) && contentMode == Override(a, a, old(contentMode)))
    {
      var a := AttributeValue(element, "contentMode");
      if IsNotEmpty(a) {
        if a.value !in env.contentModes {
          return Err(UnknownContentMode(a.value));
        }
        contentMode := a;
      }
      return Ok(());
    }

    /** `loadMaximized`, `loadModal` and `loadStyleName`. */
    method LoadWindow(element: Node)
      modifies `maximized, `modal, `styleName
      ensures Current() == WindowSettings(element, old(Current()))
    {
      var a := AttributeValue(element, "maximized");
      if IsNotEmpty(a) {
        maximized := Some(ParseBoolean(a));
      }
      a := AttributeValue(element, "modal");
      if IsNotEmpty(a) {
        modal := Some(ParseBoolean(a));
      }
      a := AttributeValue(element, "styleName");
      if IsNotEmpty(a) {
        styleName := a;
      }
    }

    /** `loadId` to `loadStyleName`, in the order of `loadFromXml`. */
    method LoadCommon(element: Node, env: Lookups) returns (r: Result<(), DialogError>)
      modifies this
      ensures (Current(), r) == CommonSettings(element, env, old(Current()))
    {
      LoadTitle(element, env);
      r := LoadType(element, env);
      if r.Err? {
        return;
      }
      LoadSize(element);
      r := LoadContentMode(element, env);
      if r.Err? {
        return;
      }
      LoadWindow(element);
    }

    /** `loadTarget`. */
    method LoadTarget(element: Node) returns (r: Result<(), DialogError>)
      modifies `actionTarget, `buttonTarget
      ensures (Current(), r) == TargetSettings(element, old(Current()))
    {
      var action := AttributeValue(element, "action");
      var button := AttributeValue(element, "button");
      if IsNotEmpty(action) && IsNotEmpty(button) {
        return Err(BothTargets(action.value, button.value));
      }
      if IsNotEmpty(action) {
        actionTarget := action;
      } else if IsNotEmpty(button) {
        buttonTarget := button;
      }
      return Ok(());
    }

    /** `loadActions`: the mapped `<action>` elements replace the actions. */
    method LoadActions(element: Node, env: Lookups)
      modifies `actions
      ensures Current() == WithActions(element, env, old(Current()))
    {
      var actionsEl := ChildElement(element, "actions");
      if actionsEl.None? {
        return;
      }
      actions := Some(LoadActionList(env, ChildElements(actionsEl.value, "action")));
    }

    /** `AbstractDialogFacetProvider.loadFromXml`. */
    method LoadAbstractDialog(element: Node, env: Lookups) returns (r: Result<(), DialogError>)
      modifies this
      ensures (Current(), r) == AbstractDialogSettings(element, env, old(Current()))
    {
      r := LoadCommon(element, env);
      if r.Err? {
        return;
      }
      r := LoadTarget(element);
    }

    /** `DialogFacetProvider.loadFromXml`. */
    method LoadDialog(element: Node, env: Lookups) returns (r: Result<(), DialogError>)
      modifies this
      ensures (Current(), r) == DialogSettings(element, env, old(Current()))
    {
      r := LoadCommon(element, env);
      if r.Err? {
        return;
      }
      LoadActions(element, env);
    }

    /** `OptionDialogFacetProvider.loadFromXml`. */
    method LoadOptionDialog(element: Node, env: Lookups) returns (r: Result<(), DialogError>)
      modifies this
      ensures (Current(), r) == OptionDialogSettings(element, env, old(Current()))
    {
      r := LoadAbstractDialog(element, env);
      if r.Err? {
        return;
      }
      LoadActions(element, env);
    }
  }
}
