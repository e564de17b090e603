// The in-memory object graph the serializers walk, with the facts about .NET
// types that their reflection calls observe, stated as data.
//
// An object is identified by its heap id. The C# code identifies objects by
// GetHashCode(), which can give two distinct objects the same value (and then
// conflates them); the model uses the id, that is, a hash code that never
// collides.
module ObjectGraph {
  import opened Wrappers

  // The primitive types of .NET (Type.IsPrimitive).
  datatype Prim =
    | Boolean | Byte | SByte | Int16 | UInt16 | Int32 | UInt32 | Int64 | UInt64
    | IntPtr | UIntPtr | Char | Double | Single

  // The category of a type, as far as the serializers' type tests can tell.
  datatype Shape =
    | Primitive(prim: Prim)
    | DecimalType | StringType | DateTimeType | DateTimeOffsetType | TimeSpanType
    | GuidType | UriType
    | EnumType
    | ArrayType              // T[]
    | GenericListType        // System.Collections.Generic.List<T>
    | DictionaryType         // implements the non-generic IDictionary
    | CollectionType(isList: bool)  // another ICollection; isList: it also implements IList
    | EnumerableType         // implements IEnumerable only (a HashSet<T>, a query)
    | ObjectType             // System.Object itself
    | SystemClass            // another class whose full name starts with "System."
    | SystemStruct           // another struct whose full name starts with "System."
    | UserClass              // a class outside the System namespaces
    | UserStruct             // a struct outside the System namespaces
    | InterfaceType(enumerable: bool)  // only ever a declared property type

  // The element type of a generic enumerable (its first IEnumerable<T>), or
  // none for a non-generic one.
  datatype ElemKind = NonGeneric | ValueElem(isByte: bool) | ReferenceElem(isClass: bool)

  // A type descriptor: what reflection reports about a type.
  //   name          Type.Name
  //   inSystem      Type.FullName starts with "System."
  //   nullable      a declared type Nullable<T>; shape and the rest describe T
  //   hasProperties GetProperties() is non-empty
  //   simpleValue   the [JsonSimpleValue] tag on the class, naming a property
  datatype TypeDesc = TypeDesc(
    name: string,
    shape: Shape,
    inSystem: bool,
    elem: ElemKind,
    nullable: bool,
    hasProperties: bool,
    simpleValue: Option<string>)

  datatype Value = Null | Ref(id: nat)

  // A public instance property: its name, its declared type, the format string
  // of a [DisplayFormat] attribute on it, and its current value.
  datatype Prop = Prop(name: string, declared: TypeDesc, format: Option<string>, value: Value)

  // The renderings of a scalar that the serializers ask .NET for.
  //   text        obj.ToString()
  //   jsonText    System.Text.Json's serialization with the quotes removed
  //   decimalText Convert.ToDecimal(obj) rendered, or none when it overflows
  //   enumName    Enum.GetName for an enum value
  //   integral    the integer value of an integral primitive
  datatype Scalar = Scalar(
    text: string,
    jsonText: string,
    decimalText: Option<string>,
    boolValue: bool,
    enumName: string,
    integral: Option<int>)

  // One object on the heap: its runtime type, its properties in declaration
  // order, its elements (an enumerable), its entries (a dictionary: key text
  // and value) and its scalar renderings.
  datatype Node = Node(
    typ: TypeDesc,
    props: seq<Prop>,
    items: seq<Value>,
    entries: seq<(string, Value)>,
    scalar: Scalar)

  type Heap = map<nat, Node>

  // The .NET name of each standard type the serializers test by name.
  function StdName(s: Shape): Option<string>
  {
    match s
    case StringType => Some("String")
    case DecimalType => Some("Decimal")
    case DateTimeType => Some("DateTime")
    case Primitive(Single) => Some("Single")
    case _ => None
  }

  // Type.IsClass.
  predicate IsClass(t: TypeDesc)
  {
    match t.shape
    case StringType | UriType | ArrayType | GenericListType | DictionaryType
      | CollectionType(_) | EnumerableType | ObjectType | SystemClass | UserClass => !t.nullable
    case _ => false
  }

  // Type.IsPrimitive.
  predicate IsPrimitive(t: TypeDesc)
  {
    t.shape.Primitive? && !t.nullable
  }

  // The type implements the non-generic IEnumerable.
  predicate ImplementsIEnumerable(t: TypeDesc)
  {
    !t.nullable &&
    match t.shape
    case StringType | ArrayType | GenericListType | DictionaryType | CollectionType(_) | EnumerableType => true
    case InterfaceType(e) => e
    case _ => false
  }

  // The type implements the non-generic IDictionary.
  predicate ImplementsIDictionary(t: TypeDesc)
  {
    !t.nullable && t.shape.DictionaryType?
  }

  // The type implements the non-generic ICollection.
  predicate ImplementsICollection(t: TypeDesc)
  {
    !t.nullable &&
    match t.shape
    case ArrayType | GenericListType | DictionaryType | CollectionType(_) => true
    case _ => false
  }

  // The type implements IList, so `obj as IList` is not null.
  predicate ImplementsIList(t: TypeDesc)
  {
    !t.nullable &&
    match t.shape
    case ArrayType | GenericListType => true
    case CollectionType(isList) => isList
    case _ => false
  }

  // `obj as IEnumerable<object>` succeeds: a generic enumerable of a reference
  // element type (variance does not apply to value types).
  predicate CastsToObjectEnumerable(t: TypeDesc)
  {
    ImplementsIEnumerable(t) && !t.shape.StringType? && t.elem.ReferenceElem?
  }

  // Values Json.NET's JsonWriter.WriteValue(object) accepts: primitives other
  // than IntPtr/UIntPtr, the standard scalars, enums and byte[]. Anything else
  // makes it throw "Unsupported type".
  predicate JsonNetWritable(t: TypeDesc)
  {
    match t.shape
    case Primitive(p) => p != IntPtr && p != UIntPtr
    case DecimalType | StringType | DateTimeType | DateTimeOffsetType | TimeSpanType
      | GuidType | UriType | EnumType => true
    case ArrayType => t.elem == ValueElem(true)
    case _ => false
  }

  // A descriptor that reflection could report for a runtime type: never an
  // interface or a Nullable<T> (boxing unwraps it), standard types carry their
  // .NET names and namespace, an enum has no properties, and enumerables of
  // the System namespace are classes there.
  predicate RuntimeType(t: TypeDesc)
  {
    !t.nullable && !t.shape.InterfaceType? &&
    (StdName(t.shape).Some? ==> t.name == StdName(t.shape).value) &&
    (t.shape.UserClass? || t.shape.UserStruct? || t.shape.EnumType? ==> !t.inSystem) &&
    (t.shape.EnumType? ==> !t.hasProperties) &&
    (!(t.shape.UserClass? || t.shape.UserStruct? || t.shape.EnumType? || t.shape.ArrayType?) ==> t.inSystem)
  }

  // Every id a node mentions is on the heap.
  predicate NodeClosed(h: Heap, n: Node)
  {
    (forall p :: p in n.props && p.value.Ref? ==> p.value.id in h) &&
    (forall v :: v in n.items && v.Ref? ==> v.id in h) &&
    (forall e :: e in n.entries && e.1.Ref? ==> e.1.id in h)
  }

  // A heap the model accepts: closed under references, every runtime type
  // well formed, and a type reports properties exactly when it has some.
  predicate WellFormed(h: Heap)
  {
    forall id :: id in h ==>
      NodeClosed(h, h[id]) && RuntimeType(h[id].typ) &&
      h[id].typ.hasProperties == (|h[id].props| > 0)
  }

  predicate Valid(h: Heap, v: Value)
  {
    v.Ref? ==> v.id in h
  }

  lemma PropValueValid(h: Heap, n: Node, i: nat)
    requires NodeClosed(h, n) && i < |n.props|
    ensures Valid(h, n.props[i].value)
  {
    assert n.props[i] in n.props;
  }

  lemma ItemValid(h: Heap, n: Node, i: nat)
    requires NodeClosed(h, n) && i < |n.items|
    ensures Valid(h, n.items[i])
  {
    assert n.items[i] in n.items;
  }

  lemma ItemsValid(h: Heap, n: Node)
    requires NodeClosed(h, n)
    ensures forall j :: 0 <= j < |n.items| ==> Valid(h, n.items[j])
  {
    forall j | 0 <= j < |n.items| {
      ItemValid(h, n, j);
    }
  }

  lemma EntryValid(h: Heap, n: Node, i: nat)
    requires NodeClosed(h, n) && i < |n.entries|
    ensures Valid(h, n.entries[i].1)
  {
    assert n.entries[i] in n.entries;
  }

  // String.Format(format, value): its text, or None when .NET throws a
  // FormatException for that format.
  type Formatter = (string, Value) -> Option<string>

  // The format of the property renders (or there is none).
  predicate FormatOk(p: Prop, format: Formatter)
  {
    p.format.None? || format(p.format.value, p.value).Some?
  }

  predicate FormatsOk(n: Node, format: Formatter)
  {
    forall i :: 0 <= i < |n.props| ==> FormatOk(n.props[i], format)
  }

  // The settings a serializer walk holds fixed: the depth bound, the names
  // never written and the formatter.
  datatype WalkSettings = WalkSettings(maxDepth: int, ignore: set<string>, format: Formatter)

  function Formatted(p: Prop, format: Formatter): Option<string>
  {
    if p.format.Some? then format(p.format.value, p.value) else None
  }

  // The registration map only grows, and a recorded depth never changes.
  ghost predicate Extends(m0: map<nat, int>, m1: map<nat, int>)
  {
    forall k :: k in m0 ==> k in m1 && m1[k] == m0[k]
  }

  // Entries added between m0 and m1 record a depth in [lo, hi].
  ghost predicate NewKeysWithin(m0: map<nat, int>, m1: map<nat, int>, lo: int, hi: int)
  {
    forall k :: k in m1 && k !in m0 ==> lo <= m1[k] <= hi
  }

  lemma GrowsTrans(m0: map<nat, int>, m1: map<nat, int>, m2: map<nat, int>, lo: int, hi: int)
    requires Extends(m0, m1) && NewKeysWithin(m0, m1, lo, hi)
    requires Extends(m1, m2) && NewKeysWithin(m1, m2, lo, hi)
    ensures Extends(m0, m2) && NewKeysWithin(m0, m2, lo, hi)
  {
  }
}
