/**
 * The class-migration helpers of `EntitySnapshotManager`: recognising XML
 * snapshot text, choosing the id column and id value of an entity, the checks
 * of `createSnapshot`, and the class-rename rewrite applied to a snapshot's
 * XML tree and to its view text.
 *
 * A `Map<Class, Class>` is a sequence of entries in iteration order, each
 * class given by its canonical name. dom4j elements are values of `Xml.Node`;
 * the methods return the rewritten tree instead of mutating it.
 */
module EntitySnapshots {
  import opened Wrappers
  import opened JavaStrings
  import opened Xml

  // ---------------------------------------------------------------------------
  // XML detection

  /** `isXml`: non-null, and the trimmed text starts with '<'. */
  predicate IsXml(value: Option<string>) {
    value.Some? && StartsWith(Trim(value.value), "<")
  }

  /** The first character of `s` above ' ' exists and is `c`. */
  predicate FirstVisibleIs(s: string, c: char) {
    exists i :: 0 <= i < |s| && s[i] == c && forall j :: 0 <= j < i ==> IsTrimmed(s[j])
  }

  /** Snapshot text counts as XML exactly when its first character above ' ' is '<'. */
  lemma IsXmlIffFirstVisibleIsLt(s: string)
    ensures IsXml(Some(s)) <==> FirstVisibleIs(s, '<')
  {
    if IsXml(Some(s)) {
      XmlStartsWithLt(s);
    }
    if FirstVisibleIs(s, '<') {
      var i :| 0 <= i < |s| && s[i] == '<' && forall j :: 0 <= j < i ==> IsTrimmed(s[j]);
      LtFirstIsXml(s, i);
    }
  }

  lemma XmlStartsWithLt(s: string)
    requires IsXml(Some(s))
    ensures FirstVisibleIs(s, '<')
  {
    var t := TrimLeft(s);
    var k := |s| - |t|;
    var r := TrimRight(t);
    TrimLeftShape(s);
    TrimRightShape(t);
    assert r[0] == '<';
    assert t[0] == r[0];
    assert s[k] == t[0];
  }

  lemma LtFirstIsXml(s: string, i: nat)
    requires i < |s| && s[i] == '<' && forall j :: 0 <= j < i ==> IsTrimmed(s[j])
    ensures IsXml(Some(s))
  {
    var t := TrimLeft(s);
    var k := |s| - |t|;
    TrimLeftShape(s);
    TrimRightShape(t);
    assert t != [];
    assert s[k] == t[0];
    assert k == i;
    var r := TrimRight(t);
    assert r != [];
    assert r[0] == t[0];
  }

  // ---------------------------------------------------------------------------
  // Entity ids

  /** The Java type of an entity's primary-key property. */
  datatype KeyType = UuidType | LongType | IntegerType | StringType | OtherType(simpleName: string)

  /** An identifier value. */
  datatype IdValue =
    | UuidId(uuid: nat)
    | LongId(long: int)
    | IntegerId(integer: int)
    | StringId(str: string)
    | OtherId(typeName: string)

  /** What `Entity.getId()` returns: a plain value, or an `IdProxy` wrapping a database-generated one. */
  datatype RawId = Plain(id: IdValue) | Proxied(id: IdValue)

  /** The facts about an entity and its meta-class that the helpers consult. */
  datatype Entity = Entity(
    javaClass: string,
    hasUuid: bool,
    uuid: nat,
    id: RawId,
    primaryKey: Option<KeyType>,
    compositeKey: bool)

  datatype SnapshotError =
    | NullArgument
    | CompositeKeyWithoutUuid
    | ViewNotApplicable
    | UnsupportedKeyType(simpleName: string)
    | PrimaryKeyNotFound
    | UnparsableXml

  /** The key type an id value belongs to. */
  function KindOf(id: IdValue): KeyType {
    match id
    case UuidId(_) => UuidType
    case LongId(_) => LongType
    case IntegerId(_) => IntegerType
    case StringId(_) => StringType
    case OtherId(n) => OtherType(n)
  }

  /** The `sys$EntitySnapshot` column that stores ids of each key type. */
  function ColumnFor(k: KeyType): Option<string> {
    match k
    case UuidType => Some("entityId")
    case LongType => Some("longEntityId")
    case IntegerType => Some("intEntityId")
    case StringType => Some("stringEntityId")
    case OtherType(_) => None
  }

  /** `getEntityId`: the uuid of a HasUuid entity, else the id with any IdProxy unwrapped. */
  function EntityId(e: Entity): IdValue {
    if e.hasUuid then UuidId(e.uuid)
    else
      match e.id
      case Proxied(v) => v
      case Plain(v) => v
  }

  /** `getEntityIdPropertyName`: the column a snapshot query filters on; IllegalStateException otherwise. */
  function EntityIdPropertyName(e: Entity): (r: Result<string, SnapshotError>)
    ensures r.Ok? ==> r.value in {"entityId", "longEntityId", "intEntityId", "stringEntityId"}
    ensures r.Err? <==> !e.hasUuid && (e.primaryKey.None? || e.primaryKey.value.OtherType?)
  {
    if e.hasUuid then Ok("entityId")
    else
      match e.primaryKey
      case None => Err(PrimaryKeyNotFound)
      case Some(UuidType) => Ok("entityId")
      case Some(LongType) => Ok("longEntityId")
      case Some(IntegerType) => Ok("intEntityId")
      case Some(StringType) => Ok("stringEntityId")
      case Some(OtherType(n)) => Err(UnsupportedKeyType(n))
  }

  /** The entity's id value has the type its meta-class declares for the primary key. */
  predicate WellTyped(e: Entity) {
    !e.hasUuid ==> e.primaryKey == Some(KindOf(e.id.id))
  }

  /**
   * `getSnapshots` filters the column named by `getEntityIdPropertyName` with
   * the value of `getEntityId`: for a well-typed entity that column is the one
   * storing the id's own type, and the name is missing only for ids of other types.
   */
  lemma IdColumnMatchesIdValue(e: Entity)
    requires WellTyped(e)
    ensures EntityIdPropertyName(e).Ok? <==> ColumnFor(KindOf(EntityId(e))).Some?
    ensures EntityIdPropertyName(e).Ok? ==> EntityIdPropertyName(e).value == ColumnFor(KindOf(EntityId(e))).value
    ensures EntityIdPropertyName(e).Err? ==> EntityIdPropertyName(e) == Err(UnsupportedKeyType(KindOf(EntityId(e)).simpleName))
  {
  }

  /** `getEntityId` never exposes the IdProxy wrapper: proxied and plain ids give the same value. */
  lemma EntityIdUnwrapsProxy(e: Entity)
    ensures EntityId(e.(id := Proxied(e.id.id))) == EntityId(e.(id := Plain(e.id.id)))
    ensures e.hasUuid ==> EntityId(e) == UuidId(e.uuid)
    ensures !e.hasUuid ==> EntityId(e) == e.id.id
  {
  }

  /** `checkCompositePrimaryKey`: UnsupportedOperationException for a composite key without HasUuid. */
  function CheckCompositePrimaryKey(e: Entity): (r: Result<(), SnapshotError>)
    ensures r.Err? <==> e.compositeKey && !e.hasUuid
    ensures r.Err? ==> r.error == CompositeKeyWithoutUuid
  {
    if e.compositeKey && !e.hasUuid then Err(CompositeKeyWithoutUuid) else Ok(())
  }

  /** The view a snapshot is taken with. */
  datatype View = View(entityClass: string)

  /** A new `sys$EntitySnapshot` record. The serialized view and entity are given. */
  datatype Snapshot = Snapshot(
    objectEntityId: IdValue,
    entityMetaClass: string,
    viewJson: string,
    snapshotJson: string,
    snapshotDate: int,
    author: int)

  /**
   * The checks and field assignments of `createSnapshot`. `assignable(a, b)`
   * stands for `Class.isAssignableFrom`, `metaClassName` for the original
   * meta-class name, and the JSON strings for the serializers' output.
   */
  function CreateSnapshot(entity: Option<Entity>, view: Option<View>, snapshotDate: Option<int>, author: int,
                          assignable: (string, string) -> bool, metaClassName: string,
                          viewJson: string, snapshotJson: string): (r: Result<Snapshot, SnapshotError>)
    ensures (entity.None? || view.None? || snapshotDate.None?) ==> r == Err(NullArgument)
    ensures entity.Some? && view.Some? && snapshotDate.Some? ==>
      (r.Err? <==> (entity.value.compositeKey && !entity.value.hasUuid) ||
                   !assignable(view.value.entityClass, entity.value.javaClass))
    ensures entity.Some? && view.Some? && snapshotDate.Some? && entity.value.compositeKey && !entity.value.hasUuid ==>
      r == Err(CompositeKeyWithoutUuid)
    ensures r.Ok? ==>
      (r.value.objectEntityId == EntityId(entity.value) && r.value.author == author &&
       r.value.snapshotDate == snapshotDate.value && r.value.entityMetaClass == metaClassName &&
       r.value.viewJson == viewJson && r.value.snapshotJson == snapshotJson)
  {
    if entity.None? || view.None? || snapshotDate.None? then Err(NullArgument)
    else
      var e := entity.value;
      var _ :- CheckCompositePrimaryKey(e);
      if !assignable(view.value.entityClass, e.javaClass) then Err(ViewNotApplicable)
      else Ok(Snapshot(EntityId(e), metaClassName, viewJson, snapshotJson, snapshotDate.value, author))
  }

  // ---------------------------------------------------------------------------
  // Class mapping on one element

  /** A canonical class name. */
  type ClassName = s: string | |s| > 0 witness "A"

  /** One entry of the `Map<Class, Class>` handed to `migrateSnapshots`. */
  datatype ClassMapping = ClassMapping(before: ClassName, after: ClassName)

  /** What one entry does to a class name: an entry with equal classes is skipped. */
  function Step(c: ClassMapping, name: string): string {
    if c.before != c.after && name == c.before then c.after else name
  }

  /** `element.attribute("class")`, rewritten by one entry when its value is the before name. */
  function RewriteClassAttribute(attrs: seq<Attribute>, c: ClassMapping): seq<Attribute> {
    var k := FirstAttributeIndex(attrs, "class");
    if k < |attrs| then attrs[k := Attribute("class", Step(c, attrs[k].value))] else attrs
  }

  /** One iteration of the loop in `replaceClasses`. */
  function ApplyMapping(e: Node, c: ClassMapping): Node {
    match e
    case Text(_) => e
    case Element(name, attrs, children) => Element(Step(c, name), RewriteClassAttribute(attrs, c), children)
  }

  function ClassAttribute(e: Node): Option<string> {
    AttributeValue(e, "class")
  }

  /**
   * `replaceClasses`: the entries applied in iteration order. Only the
   * element's name and its first `class` attribute can change.
   */
  function ReplaceClassesSpec(e: Node, mapping: seq<ClassMapping>): (r: Node)
    ensures e.Text? ==> r == e
    ensures e.Element? ==> r.Element? && r.children == e.children && |r.attributes| == |e.attributes|
    ensures e.Element? ==> forall k :: 0 <= k < |e.attributes| ==> r.attributes[k].name == e.attributes[k].name
    ensures e.Element? ==>
      forall k :: 0 <= k < |e.attributes| && k != FirstAttributeIndex(e.attributes, "class") ==>
        r.attributes[k] == e.attributes[k]
    decreases |mapping|
  {
    if mapping == [] then e
    else
      var prev := ReplaceClassesSpec(e, mapping[..|mapping| - 1]);
      assert e.Element? ==> FirstAttributeIndex(prev.attributes, "class") == FirstAttributeIndex(e.attributes, "class") by {
        if e.Element? {
          SameNamesSameIndex(prev.attributes, e.attributes, "class");
        }
      }
      ApplyMapping(prev, mapping[|mapping| - 1])
  }

  lemma SameNamesSameIndex(a: seq<Attribute>, b: seq<Attribute>, name: string)
    requires |a| == |b| && forall k :: 0 <= k < |a| ==> a[k].name == b[k].name
    ensures FirstAttributeIndex(a, name) == FirstAttributeIndex(b, name)
  {
  }

  /** `replaceClasses`, entry by entry. */
  method ReplaceClasses(element: Node, mapping: seq<ClassMapping>) returns (r: Node)
    ensures r == ReplaceClassesSpec(element, mapping)
  {
    r := element;
    for i := 0 to |mapping|
      invariant r == ReplaceClassesSpec(element, mapping[..i])
    {
      assert mapping[..i + 1][..i] == mapping[..i];
      r := ApplyMapping(r, mapping[i]);
    }
    assert mapping[..|mapping|] == mapping;
  }

  /** The entries whose classes differ. */
  function Effective(mapping: seq<ClassMapping>): (r: seq<ClassMapping>)
    ensures forall k :: 0 <= k < |r| ==> r[k] in mapping && r[k].before != r[k].after
    decreases |mapping|
  {
    if mapping == [] then []
    else
      var last := mapping[|mapping| - 1];
      var init := Effective(mapping[..|mapping| - 1]);
      if last.before != last.after then init + [last] else init
  }

  /** Entries mapping a class to itself are skipped. */
  lemma {:induction false} IdentityEntriesAreSkipped(e: Node, mapping: seq<ClassMapping>)
    ensures ReplaceClassesSpec(e, mapping) == ReplaceClassesSpec(e, Effective(mapping))
    decreases |mapping|
  {
    if mapping != [] {
      var init := mapping[..|mapping| - 1];
      var last := mapping[|mapping| - 1];
      IdentityEntriesAreSkipped(e, init);
      var mid := ReplaceClassesSpec(e, init);
      if last.before != last.after {
        var eff := Effective(init) + [last];
        assert eff[..|eff| - 1] == Effective(init);
      } else {
        assert ApplyMapping(mid, last) == mid by {
          if mid.Element? {
            var k := FirstAttributeIndex(mid.attributes, "class");
            if k < |mid.attributes| {
              assert mid.attributes[k := Attribute("class", mid.attributes[k].value)] == mid.attributes;
            }
          }
        }
      }
    }
  }

  /** A class mapping as a `Map`: distinct keys, and no changed class renamed again by another entry. */
  predicate ValidMapping(m: seq<ClassMapping>) {
    (forall i, j :: 0 <= i < j < |m| ==> m[i].before != m[j].before) &&
    (forall i, j :: 0 <= i < |m| && 0 <= j < |m| && m[i].before != m[i].after ==> m[i].after != m[j].before)
  }

  /** The class `x` is mapped to, or `x` itself when it is not a key. */
  function Renamed(m: seq<ClassMapping>, x: string): string
    decreases |m|
  {
    if m == [] then x
    else if m[|m| - 1].before == x then m[|m| - 1].after
    else Renamed(m[..|m| - 1], x)
  }

  lemma {:induction false} RenamedIsKeyed(m: seq<ClassMapping>, x: string)
    ensures Renamed(m, x) == x || exists i :: 0 <= i < |m| && m[i].before == x && m[i].after == Renamed(m, x)
    ensures (forall i :: 0 <= i < |m| ==> m[i].before != x) ==> Renamed(m, x) == x
    decreases |m|
  {
    if m != [] && m[|m| - 1].before != x {
      var init := m[..|m| - 1];
      RenamedIsKeyed(init, x);
      if Renamed(init, x) != x {
        var i :| 0 <= i < |init| && init[i].before == x && init[i].after == Renamed(init, x);
        assert m[i] == init[i];
      }
      if forall i :: 0 <= i < |m| ==> m[i].before != x {
        assert forall i :: 0 <= i < |init| ==> init[i] == m[i];
      }
    }
  }

  /** Applying the last entry after the others renames as the whole mapping does. */
  lemma RenameStep(m: seq<ClassMapping>, x: string)
    requires m != [] && ValidMapping(m)
    ensures Step(m[|m| - 1], Renamed(m[..|m| - 1], x)) == Renamed(m, x)
  {
    var init := m[..|m| - 1];
    var last := m[|m| - 1];
    var y := Renamed(init, x);
    RenamedIsKeyed(init, x);
    if x == last.before {
      assert forall i :: 0 <= i < |init| ==> init[i] == m[i];
    }
  }

  function RenamedValue(m: seq<ClassMapping>, v: Option<string>): Option<string> {
    match v
    case None => None
    case Some(s) => Some(Renamed(m, s))
  }

  lemma ApplyMappingClassAttribute(e: Node, c: ClassMapping)
    requires e.Element?
    ensures ClassAttribute(ApplyMapping(e, c)) ==
      match ClassAttribute(e) case None => None case Some(v) => Some(Step(c, v))
  {
    var r := ApplyMapping(e, c);
    SameNamesSameIndex(r.attributes, e.attributes, "class");
    FirstValueAtIndex(r.attributes, "class");
    FirstValueAtIndex(e.attributes, "class");
  }

  /**
   * For a proper class map, `replaceClasses` renames an element whose name is
   * a key to the mapped class, and likewise the value of its `class` attribute.
   */
  lemma {:induction false} ReplaceClassesFollowsMapping(e: Node, m: seq<ClassMapping>)
    requires e.Element? && ValidMapping(m)
    ensures ReplaceClassesSpec(e, m).name == Renamed(m, e.name)
    ensures ClassAttribute(ReplaceClassesSpec(e, m)) == RenamedValue(m, ClassAttribute(e))
    decreases |m|
  {
    if m != [] {
      var init := m[..|m| - 1];
      var last := m[|m| - 1];
      assert ValidMapping(init) by {
        assert forall i :: 0 <= i < |init| ==> init[i] == m[i];
      }
      ReplaceClassesFollowsMapping(e, init);
      var mid := ReplaceClassesSpec(e, init);
      RenameStep(m, e.name);
      ApplyMappingClassAttribute(mid, last);
      if ClassAttribute(e).Some? {
        RenameStep(m, ClassAttribute(e).value);
      }
    }
  }

  // ---------------------------------------------------------------------------
  // Class mapping on a tree

  /** What `replaceClasses` on the root and `replaceInXmlTree` do to a tree together. */
  function RewriteAll(n: Node, m: seq<ClassMapping>): Node
    decreases n, 1
  {
    match n
    case Text(_) => n
    case Element(_, _, children) =>
      var top := ReplaceClassesSpec(n, m);
      Element(top.name, top.attributes, RewriteAllOf(children, m))
  }

  function RewriteAllOf(nodes: seq<Node>, m: seq<ClassMapping>): (r: seq<Node>)
    ensures |r| == |nodes|
    ensures forall k :: 0 <= k < |nodes| ==> r[k] == RewriteAll(nodes[k], m)
    decreases nodes, 0
  {
    if nodes == [] then []
    else RewriteAllOf(nodes[..|nodes| - 1], m) + [RewriteAll(nodes[|nodes| - 1], m)]
  }

  /** The node reached from `n` by following child indexes. */
  function NodeAt(n: Node, path: seq<nat>): Option<Node>
    decreases |path|
  {
    if path == [] then Some(n)
    else if n.Element? && path[0] < |n.children| then NodeAt(n.children[path[0]], path[1..])
    else None
  }

  /** A node without its children: an element's name and attributes, or a text node. */
  function Label(n: Node): Node {
    match n
    case Text(_) => n
    case Element(name, attrs, _) => Element(name, attrs, [])
  }

  /**
   * The rewrite keeps every path of the tree, keeps text nodes, and gives each
   * element exactly one application of `replaceClasses`.
   */
  lemma {:induction false} RewritesEveryElementOnce(n: Node, m: seq<ClassMapping>, path: seq<nat>)
    ensures NodeAt(RewriteAll(n, m), path).Some? <==> NodeAt(n, path).Some?
    ensures NodeAt(n, path).Some? ==>
      Label(NodeAt(RewriteAll(n, m), path).value) == Label(ReplaceClassesSpec(NodeAt(n, path).value, m))
    decreases |path|
  {
    if path != [] && n.Element? && path[0] < |n.children| {
      RewritesEveryElementOnce(n.children[path[0]], m, path[1..]);
    }
  }

  /** The descendant text, what `getStringValue` reads, is untouched by the rewrite. */
  lemma {:induction false} RewritePreservesText(n: Node, m: seq<ClassMapping>)
    ensures StringValue(RewriteAll(n, m)) == StringValue(n)
    decreases n, 1
  {
    if n.Element? {
      RewritePreservesTextOf(n.children, m);
    }
  }

  lemma {:induction false} RewritePreservesTextOf(nodes: seq<Node>, m: seq<ClassMapping>)
    ensures StringValueOf(RewriteAllOf(nodes, m)) == StringValueOf(nodes)
    decreases nodes, 0
  {
    if nodes != [] {
      RewritePreservesText(nodes[0], m);
      var r := RewriteAllOf(nodes, m);
      assert RewriteAllOf(nodes[1..], m) == r[1..];
      RewritePreservesTextOf(nodes[1..], m);
    }
  }

  /** Number of nodes in a tree; the measure `replaceInXmlTree` recurses on. */
  function Size(n: Node): nat
    decreases n, 1
  {
    match n
    case Text(_) => 1
    case Element(_, _, children) => 1 + SizeOf(children)
  }

  function SizeOf(nodes: seq<Node>): nat
    decreases nodes, 0
  {
    if nodes == [] then 0 else SizeOf(nodes[..|nodes| - 1]) + Size(nodes[|nodes| - 1])
  }

  lemma {:induction false} ChildSizeBelow(nodes: seq<Node>, k: nat)
    requires k < |nodes|
    ensures Size(nodes[k]) <= SizeOf(nodes)
    decreases |nodes|
  {
    if k < |nodes| - 1 {
      ChildSizeBelow(nodes[..|nodes| - 1], k);
    }
  }

  /** `replaceInXmlTree`: each child element gets `replaceClasses`, then its own subtree. */
  method ReplaceInXmlTree(element: Node, mapping: seq<ClassMapping>) returns (r: Node)
    requires element.Element?
    ensures r == element.(children := RewriteAllOf(element.children, mapping))
    decreases Size(element)
  {
    var children := element.children;
    var i := 0;
    while i < |children|
      invariant 0 <= i <= |children| == |element.children|
      invariant forall k :: 0 <= k < i ==> children[k] == RewriteAll(element.children[k], mapping)
      invariant forall k :: i <= k < |children| ==> children[k] == element.children[k]
    {
      var node := children[i];
      assert node == element.children[i];
      if node.Element? {
        var child := ReplaceClasses(node, mapping);
        ChildSizeBelow(element.children, i);
        child := ReplaceInXmlTree(child, mapping);
        children := children[i := child];
      }
      i := i + 1;
    }
    assert children == RewriteAllOf(element.children, mapping);
    r := element.(children := children);
  }

  /**
   * `processSnapshotXml`. `parse` stands for `DocumentHelper.parseText`
   * (None when it throws) and `render` for `Document.asXML`.
   */
  method ProcessSnapshotXml(snapshotXml: Option<string>, mapping: seq<ClassMapping>,
                            parse: string -> Option<Node>, render: Node -> string)
    returns (r: Result<Option<string>, SnapshotError>)
    requires forall s :: parse(s).Some? ==> parse(s).value.Element?
    ensures !IsXml(snapshotXml) ==> r == Ok(snapshotXml)
    ensures IsXml(snapshotXml) && parse(snapshotXml.value).None? ==> r == Err(UnparsableXml)
    ensures IsXml(snapshotXml) && parse(snapshotXml.value).Some? ==>
      r == Ok(Some(render(RewriteAll(parse(snapshotXml.value).value, mapping))))
  {
    if !IsXml(snapshotXml) {
      return Ok(snapshotXml);
    }
    var document := parse(snapshotXml.value);
    if document.None? {
      return Err(UnparsableXml);
    }
    var root := ReplaceClasses(document.value, mapping);
    root := ReplaceInXmlTree(root, mapping);
    return Ok(Some(render(root)));
  }

  // ---------------------------------------------------------------------------
  // Class mapping on view text

  /**
   * The replacement of `processViewXml`, read literally: every occurrence of `p`,
   * scanned left to right without overlap, becomes `q`. The source calls
   * `replaceAll`, which reads `p` as a regular expression whose dots match any
   * character; the lemmas below hold for this literal reading.
   */
  function ReplaceAll(s: string, p: string, q: string): string
    requires |p| > 0
    decreases |s|
  {
    if |s| < |p| then s
    else if s[..|p|] == p then q + ReplaceAll(s[|p|..], p, q)
    else [s[0]] + ReplaceAll(s[1..], p, q)
  }

  /** Text without the before name is unchanged. */
  lemma {:induction false} ReplaceAllWithoutOccurrence(s: string, p: string, q: string)
    requires |p| > 0 && forall i :: 0 <= i <= |s| - |p| ==> !OccursAt(s, p, i)
    ensures ReplaceAll(s, p, q) == s
    decreases |s|
  {
    if |s| >= |p| {
      assert !OccursAt(s, p, 0);
      assert forall i :: 0 <= i <= |s[1..]| - |p| ==> !OccursAt(s[1..], p, i) by {
        forall i | 0 <= i <= |s[1..]| - |p|
          ensures !OccursAt(s[1..], p, i)
        {
          assert !OccursAt(s, p, i + 1);
          assert s[1..][i..i + |p|] == s[i + 1..i + 1 + |p|];
        }
      }
      ReplaceAllWithoutOccurrence(s[1..], p, q);
    }
  }

  /** Replacing a name by itself is the identity. */
  lemma {:induction false} ReplaceAllSelf(s: string, p: string)
    requires |p| > 0
    ensures ReplaceAll(s, p, p) == s
    decreases |s|
  {
    if |s| >= |p| {
      if s[..|p|] == p {
        ReplaceAllSelf(s[|p|..], p);
        assert s == s[..|p|] + s[|p|..];
      } else {
        ReplaceAllSelf(s[1..], p);
        assert s == [s[0]] + s[1..];
      }
    }
  }

  /** The view text after every entry, in iteration order; unlike the tree rewrite, equal entries are not skipped. */
  function ProcessViewSpec(viewXml: string, mapping: seq<ClassMapping>): string
    decreases |mapping|
  {
    if mapping == [] then viewXml
    else
      var last := mapping[|mapping| - 1];
      ReplaceAll(ProcessViewSpec(viewXml, mapping[..|mapping| - 1]), last.before, last.after)
  }

  /** `processViewXml`: non-XML text is returned as it is, XML text has every entry replaced in turn. */
  method ProcessViewXml(viewXml: Option<string>, mapping: seq<ClassMapping>) returns (r: Option<string>)
    ensures !IsXml(viewXml) ==> r == viewXml
    ensures IsXml(viewXml) ==> r == Some(ProcessViewSpec(viewXml.value, mapping))
  {
    if !IsXml(viewXml) {
      return viewXml;
    }
    var text := viewXml.value;
    for i := 0 to |mapping|
      invariant text == ProcessViewSpec(viewXml.value, mapping[..i])
    {
      assert mapping[..i + 1][..i] == mapping[..i];
      text := ReplaceAll(text, mapping[i].before, mapping[i].after);
    }
    assert mapping[..|mapping|] == mapping;
    return Some(text);
  }

  /** A mapping of classes to themselves leaves the view text as it is. */
  lemma {:induction false} IdentityMappingKeepsView(viewXml: string, mapping: seq<ClassMapping>)
    requires forall k :: 0 <= k < |mapping| ==> mapping[k].before == mapping[k].after
    ensures ProcessViewSpec(viewXml, mapping) == viewXml
    decreases |mapping|
  {
    if mapping != [] {
      var init := mapping[..|mapping| - 1];
      assert forall k :: 0 <= k < |init| ==> init[k] == mapping[k];
      IdentityMappingKeepsView(viewXml, init);
      ReplaceAllSelf(viewXml, mapping[|mapping| - 1].before);
    }
  }
}
