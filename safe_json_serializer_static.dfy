// The static serializer of EDennis.JsonUtils (SafeJsonSerializerStatic.cs).
//
// A total classifier decides the JSON shape of every value. Arrays and
// objects are recorded in one hash list shared by the whole run, so a
// container met a second time is left out entirely, at any depth. The bound
// is the writer's own depth. Array elements can be reordered by the text each
// one serializes to on its own.
module StaticSerializer {
  import opened Wrappers
  import opened ObjectGraph
  import opened JsonTokens
  import opened KeySort

  // System.Text.Json.JsonValueKind. Inside this module `Null` is the kind;
  // the null value is tested with `v.Null?`.
  datatype JsonValueKind = Undefined | Object | Array | String | Number | True | False | Null

  // The exceptions that escape.
  datatype Failure =
    | NumberOverflow                // Convert.ToDecimal: OverflowException
    | NoGenericArgument             // GetGenericArguments()[0]: IndexOutOfRangeException
    | DuplicateText(text: string)   // Dictionary.Add: ArgumentException
    | WriterRejected(token: Token)  // Utf8JsonWriter: InvalidOperationException
    | Invocation(inner: Failure)    // MethodInfo.Invoke: TargetInvocationException

  // Type.IsArray.
  predicate IsArray(t: TypeDesc)
  {
    t.shape.ArrayType? && !t.nullable
  }

  // TypeExtensions.IsIDictionary.
  predicate IsIDictionary(t: TypeDesc)
  {
    ImplementsIDictionary(t)
  }

  // TypeExtensions.IsIEnumerable: not string, and IEnumerable is among the
  // interfaces.
  predicate IsIEnumerable(t: TypeDesc)
  {
    ImplementsIEnumerable(t) && !t.shape.StringType?
  }

  // TypeExtensions.IsNumber: byte, ushort, short, uint, int, ulong, long,
  // decimal, double and float; not sbyte, char or the pointer types.
  predicate IsNumber(t: TypeDesc)
  {
    !t.nullable &&
    match t.shape
    case Primitive(p) => p in {Byte, UInt16, Int16, UInt32, Int32, UInt64, Int64, Double, Single}
    case DecimalType => true
    case _ => false
  }

  predicate IsBool(t: TypeDesc)
  {
    t.shape == Primitive(Boolean) && !t.nullable
  }

  // string, DateTime, DateTimeOffset, TimeSpan or another primitive.
  predicate IsStringLike(t: TypeDesc)
  {
    IsPrimitive(t) ||
    (!t.nullable && (t.shape.StringType? || t.shape.DateTimeType? || t.shape.DateTimeOffsetType? || t.shape.TimeSpanType?))
  }

  // GetProperties() is non-empty; Nullable<T> has HasValue and Value.
  predicate HasProperties(t: TypeDesc)
  {
    t.nullable || t.hasProperties
  }

  // The classification of a non-null value by its runtime type and, for a
  // bool, its value. The tests apply in this order.
  function TypeKind(t: TypeDesc, b: bool): JsonValueKind
  {
    if IsArray(t) then Array
    else if IsIDictionary(t) then Object
    else if IsIEnumerable(t) then Array
    else if IsNumber(t) then Number
    else if IsBool(t) then (if b then True else False)
    else if IsStringLike(t) then String
    else if HasProperties(t) then Object
    else Undefined
  }

  function GetJsonValueKind(h: Heap, v: Value): (k: JsonValueKind)
    requires Valid(h, v)
    ensures k == JsonValueKind.Null <==> v.Null?
    ensures k == True || k == False ==> v.Ref? && IsBool(h[v.id].typ) && (k == True <==> h[v.id].scalar.boolValue)
    ensures k == Undefined ==> v.Ref? && !HasProperties(h[v.id].typ) && !IsIEnumerable(h[v.id].typ)
  {
    if v.Null? then JsonValueKind.Null else TypeKind(h[v.id].typ, h[v.id].scalar.boolValue)
  }

  predicate IsContainerKind(k: JsonValueKind)
  {
    k == Array || k == Object
  }

  // IsContainerType, on the declared type of a property.
  function IsContainerType(t: TypeDesc): (b: bool)
    ensures IsArray(t) || IsIDictionary(t) || IsIEnumerable(t) ==> b
    ensures !(IsArray(t) || IsIDictionary(t) || IsIEnumerable(t)) && (IsNumber(t) || IsBool(t) || IsStringLike(t)) ==> !b
    ensures t.nullable ==> b
    ensures t.shape.ObjectType? && !t.nullable ==> b
  {
    if IsArray(t) then true
    else if IsIDictionary(t) then true
    else if IsIEnumerable(t) then true
    else if IsNumber(t) then false
    else if IsBool(t) then false
    else if IsStringLike(t) then false
    else if HasProperties(t) then true
    else if t.shape.ObjectType? && !t.nullable then true
    else false
  }

  // For a runtime type other than System.Object, IsContainerType agrees with
  // the classifier: true exactly for types whose values are arrays or objects.
  lemma ContainerTypeMatchesKind(t: TypeDesc, b: bool)
    requires RuntimeType(t) && !t.shape.ObjectType?
    ensures IsContainerType(t) <==> IsContainerKind(TypeKind(t, b))
  {
  }

  // A dictionary is enumerable too, but it is classified as an object.
  lemma DictionaryIsObject(t: TypeDesc, b: bool)
    requires RuntimeType(t) && t.shape.DictionaryType?
    ensures IsIEnumerable(t) && TypeKind(t, b) == Object
  {
  }

  // sbyte and char are not numbers to IsNumber: they are written as strings.
  lemma SByteAndCharAreStrings(t: TypeDesc, b: bool)
    requires RuntimeType(t) && (t.shape == Primitive(SByte) || t.shape == Primitive(Char))
    ensures TypeKind(t, b) == String
  {
  }

  // The hash list shared by one run (a List<int> passed by reference).
  class HashCodeList {
    var codes: seq<nat>

    constructor ()
      ensures codes == []
    {
      codes := [];
    }
  }

  // String rendering of a writer's tokens (Utf8JsonWriter without indenting).
  type Render = seq<Token> -> string

  datatype Settings = Settings(maxDepth: int, ignore: set<string>, textOrder: bool, render: Render, leq: Comparer)

  // The termination measure: how many more levels the writer may open.
  function Budget(maxDepth: int, depth: int): nat
  {
    if depth <= maxDepth + 1 then maxDepth + 1 - depth else 0
  }

  // The fallback after a failed `as IEnumerable<object>`: the first generic
  // argument of the runtime type. Arrays and non-generic enumerables have
  // none.
  predicate HasGenericArgument(t: TypeDesc)
  {
    !t.shape.ArrayType? && !t.elem.NonGeneric?
  }

  // The single token written for a value that is not a container.
  function ScalarToken(h: Heap, v: Value): Token
    requires Valid(h, v)
  {
    if v.Ref? && h[v.id].typ.shape.EnumType? then StringValue(h[v.id].scalar.enumName)
    else match GetJsonValueKind(h, v)
      case True => BoolValue(true)
      case False => BoolValue(false)
      case String => StringValue(h[v.id].scalar.jsonText)
      case Number => NumberValue(OrEmpty(h[v.id].scalar.decimalText))
      case _ => NullValue
  }

  function OrEmpty(s: Option<string>): string
  {
    if s.Some? then s.value else ""
  }

  // Number whose Convert.ToDecimal overflows (NaN, infinities, huge doubles).
  predicate Overflows(h: Heap, v: Value)
    requires Valid(h, v)
  {
    v.Ref? && !h[v.id].typ.shape.EnumType? && GetJsonValueKind(h, v) == Number && h[v.id].scalar.decimalText.None?
  }

  ghost predicate Skipped(jw: JsonWriter, s: Settings, name: Option<string>)
    reads jw
  {
    jw.Depth() > s.maxDepth || (name.Some? && name.value in s.ignore)
  }

  ghost predicate Suppressed(h: Heap, v: Value, hc: HashCodeList)
    requires Valid(h, v)
    reads hc
  {
    IsContainerKind(GetJsonValueKind(h, v)) && v.id in hc.codes
  }

  // Neither a container nor a value that writes nothing.
  predicate ScalarCase(h: Heap, v: Value, name: Option<string>, isContainerType: bool)
    requires Valid(h, v)
  {
    var k := GetJsonValueKind(h, v);
    !IsContainerKind(k) && !(isContainerType && v.Null?) &&
    !(k == Undefined && !h[v.id].typ.shape.EnumType? && name.None?)
  }

  // The writer takes the property name (if any) and then a value.
  ghost predicate Ready(jw: JsonWriter, name: Option<string>)
    reads jw
  {
    if name.Some? then jw.AcceptsName() else jw.AcceptsValue()
  }

  // The output grammar: the tokens a call appends when it passes, by the
  // writer depth d it starts at. The hash list is not part of the grammar, so
  // a container that the list may suppress is either empty or written in
  // full; the methods say which from the list at the time of the call. With
  // `retries`, an array whose cast path failed part-way and whose reflection
  // path then passed is admitted as well: the retry enumerates the elements
  // again from whatever writer state the failure left. Every method returns
  // whether such a retry happened; without one its run is a run of the
  // grammar with `retries` false. Each layer is its own predicate so that
  // unfolding one does not unfold the next.

  // Serialize(obj, name, isContainerType) at depth d.
  ghost predicate ValueRun(h: Heap, v: Value, name: Option<string>, d: int, s: Settings, isContainerType: bool,
                           retries: bool, run: seq<Token>)
    decreases Budget(s.maxDepth, d), 3
  {
    Valid(h, v) &&
    if d > s.maxDepth || (name.Some? && name.value in s.ignore) then run == []
    else if IsContainerKind(GetJsonValueKind(h, v)) then run == [] || NamedRun(h, v, name, d, s, retries, run)
    else if isContainerType && v.Null? then run == []
    else NamedRun(h, v, name, d, s, retries, run)
  }

  // A value past the tests for depth, ignored names, the hash list and null
  // containers: the property name, then the value.
  ghost predicate NamedRun(h: Heap, v: Value, name: Option<string>, d: int, s: Settings, retries: bool, run: seq<Token>)
    decreases Budget(s.maxDepth, d), 2
  {
    exists body {:trigger ValueBody(h, v, name, d, s, retries, body)} ::
      run == NameTokens(name) + body && ValueBody(h, v, name, d, s, retries, body)
  }

  // The value after its name: an enum by its name, a container in brackets,
  // Undefined without a name as nothing, any other value as its token.
  ghost predicate ValueBody(h: Heap, v: Value, name: Option<string>, d: int, s: Settings, retries: bool, run: seq<Token>)
    decreases Budget(s.maxDepth, d), 1
  {
    Valid(h, v) && d <= s.maxDepth &&
    var k := GetJsonValueKind(h, v);
    if v.Ref? && h[v.id].typ.shape.EnumType? then run == [ScalarToken(h, v)]
    else if k == Array then ArrayRun(h, v.id, d, s, retries, run)
    else if k == Object then ObjectRun(h, v.id, d, s, retries, run)
    else if k == Undefined && name.None? then run == []
    else !Overflows(h, v) && run == [ScalarToken(h, v)]
  }

  // [, the elements, ].
  ghost predicate ArrayRun(h: Heap, id: nat, d: int, s: Settings, retries: bool, run: seq<Token>)
    decreases Budget(s.maxDepth, d), 0
  {
    id in h && d <= s.maxDepth &&
    exists body :: run == [StartArray] + body + [EndArray] &&
      ArrayItemsRun(h, h[id].items, h[id].typ, d + 1, s, retries, body)
  }

  // The elements of an array at depth d: one enumeration, through the cast
  // or through reflection, or a retried one. A retry follows whatever tokens
  // the failed cast path left (`partial`, which opened `NetDepth(partial)`
  // containers it did not close) and enumerates every element again from
  // there.
  ghost predicate ArrayItemsRun(h: Heap, items: seq<Value>, typ: TypeDesc, d: int, s: Settings, retries: bool,
                                run: seq<Token>)
    decreases Budget(s.maxDepth, d), 11
  {
    ((CastsToObjectEnumerable(typ) || HasGenericArgument(typ)) && EnumRun(h, items, d, s, retries, run)) ||
    (retries && CastsToObjectEnumerable(typ) && HasGenericArgument(typ) && RetriedRun(h, items, d, s, run))
  }

  // The tokens of a failed cast path, then every element enumerated again.
  ghost predicate RetriedRun(h: Heap, items: seq<Value>, d: int, s: Settings, run: seq<Token>)
    decreases Budget(s.maxDepth, d), 10
  {
    exists k :: 0 <= k <= |run| && RetriedAt(h, items, d, s, run, k)
  }

  // The first k tokens are what the failed attempt left.
  ghost predicate RetriedAt(h: Heap, items: seq<Value>, d: int, s: Settings, run: seq<Token>, k: int)
    requires 0 <= k <= |run|
    decreases Budget(s.maxDepth, d), 9
  {
    NetDepth(run[..k]) >= 0 && EnumRun(h, items, d + NetDepth(run[..k]), s, true, run[k..])
  }

  // SerializeEnumerable at depth d: the elements in input order, or, with
  // text ordering, in ascending order of the texts they serialize to alone.
  ghost predicate EnumRun(h: Heap, items: seq<Value>, d: int, s: Settings, retries: bool, run: seq<Token>)
    decreases Budget(s.maxDepth, d), 8
  {
    if s.textOrder then
      exists keys {:trigger TextKeyed(h, items, d, s, retries, keys)} :: TextKeyed(h, items, d, s, retries, keys) &&
        ItemsRun(h, Values(SortByKey(keys, s.leq)), d, s, retries, run)
    else ItemsRun(h, items, d, s, retries, run)
  }

  // The dictionary of texts: each element under the text it serializes to on
  // its own, no text twice.
  ghost predicate TextKeyed(h: Heap, items: seq<Value>, d: int, s: Settings, retries: bool, keys: seq<(string, Value)>)
    decreases Budget(s.maxDepth, d), 7
  {
    |keys| == |items| &&
    (forall i :: 0 <= i < |items| ==> keys[i].1 == items[i] && ElementTextOf(h, items[i], d, s, retries, keys[i].0)) &&
    (forall i, j :: 0 <= i < j < |items| ==> keys[i].0 != keys[j].0)
  }

  // The text of one element serialized alone: a fresh writer, a fresh hash
  // list, the depth that remains.
  ghost predicate ElementTextOf(h: Heap, item: Value, d: int, s: Settings, retries: bool, text: string)
    decreases Budget(s.maxDepth, d), 6
  {
    exists t :: text == s.render(t) && ValueRun(h, item, None, 0, s.(maxDepth := s.maxDepth - d), false, retries, t)
  }

  // The elements, each under no name, in the order given.
  ghost predicate ItemsRun(h: Heap, items: seq<Value>, d: int, s: Settings, retries: bool, run: seq<Token>)
    decreases Budget(s.maxDepth, d), 5
  {
    exists runs {:trigger SlotRuns(h, ItemSlots(items), d, s, retries, runs)} ::
      |runs| == |items| && run == Flatten(runs) && SlotRuns(h, ItemSlots(items), d, s, retries, runs)
  }

  // {, one run per entry of a dictionary or per property of an object, }.
  ghost predicate ObjectRun(h: Heap, id: nat, d: int, s: Settings, retries: bool, run: seq<Token>)
    decreases Budget(s.maxDepth, d), 0
  {
    id in h && d <= s.maxDepth &&
    exists runs {:trigger SlotRuns(h, MemberSlots(h[id]), d + 1, s, retries, runs)} ::
      |runs| == |MemberSlots(h[id])| && run == [StartObject] + Flatten(runs) + [EndObject] &&
      SlotRuns(h, MemberSlots(h[id]), d + 1, s, retries, runs)
  }

  // One call of the protected Serialize inside a loop: the value, its
  // property name, and whether it is typed by a container.
  datatype Slot = Slot(v: Value, name: Option<string>, isContainerType: bool)

  function ItemSlots(items: seq<Value>): seq<Slot>
  {
    seq(|items|, i requires 0 <= i < |items| => Slot(items[i], None, false))
  }

  function EntrySlots(entries: seq<(string, Value)>): seq<Slot>
  {
    seq(|entries|, i requires 0 <= i < |entries| => Slot(entries[i].1, Some(entries[i].0), false))
  }

  function PropSlots(props: seq<Prop>): seq<Slot>
  {
    seq(|props|, i requires 0 <= i < |props| => Slot(props[i].value, Some(props[i].name), IsContainerType(props[i].declared)))
  }

  // The entries of a dictionary, or else the properties of an object.
  function MemberSlots(n: Node): seq<Slot>
  {
    if IsIDictionary(n.typ) then EntrySlots(n.entries) else PropSlots(n.props)
  }

  // One run per slot so far, in order, each starting at the depth the runs
  // before it left the writer at.
  ghost predicate SlotRuns(h: Heap, slots: seq<Slot>, d: int, s: Settings, retries: bool, runs: seq<seq<Token>>)
    decreases Budget(s.maxDepth, d), 4, |runs|
  {
    |runs| <= |slots| &&
    (runs == [] ||
     var k := |runs| - 1;
     SlotRuns(h, slots, d, s, retries, runs[..k]) && NetDepth(Flatten(runs[..k])) >= 0 &&
     ValueRun(h, slots[k].v, slots[k].name, d + NetDepth(Flatten(runs[..k])), s, slots[k].isContainerType, retries, runs[k]))
  }

  lemma SlotRunsSnoc(h: Heap, slots: seq<Slot>, d: int, s: Settings, retries: bool, runs: seq<seq<Token>>, run: seq<Token>)
    requires SlotRuns(h, slots, d, s, retries, runs) && |runs| < |slots| && NetDepth(Flatten(runs)) >= 0
    requires ValueRun(h, slots[|runs|].v, slots[|runs|].name, d + NetDepth(Flatten(runs)), s,
                      slots[|runs|].isContainerType, retries, run)
    ensures SlotRuns(h, slots, d, s, retries, runs + [run])
  {
    var next := runs + [run];
    assert next[..|next| - 1] == runs && next[|next| - 1] == run;
  }

  // The same step when the loop so far and the new slot may differ in
  // whether they retried an array.
  lemma SlotRunsJoin(h: Heap, slots: seq<Slot>, d: int, s: Settings, retries: bool, runs: seq<seq<Token>>,
                     slotRetries: bool, run: seq<Token>)
    requires SlotRuns(h, slots, d, s, retries, runs) && |runs| < |slots| && NetDepth(Flatten(runs)) >= 0
    requires ValueRun(h, slots[|runs|].v, slots[|runs|].name, d + NetDepth(Flatten(runs)), s,
                      slots[|runs|].isContainerType, slotRetries, run)
    ensures SlotRuns(h, slots, d, s, retries || slotRetries, runs + [run])
  {
    if slotRetries && !retries {
      SlotRunsRetries(h, slots, d, s, runs);
    } else if retries && !slotRetries {
      ValueRunRetries(h, slots[|runs|].v, slots[|runs|].name, d + NetDepth(Flatten(runs)), s,
                      slots[|runs|].isContainerType, run);
    }
    SlotRunsSnoc(h, slots, d, s, retries || slotRetries, runs, run);
  }

  lemma NamedRunIntro(h: Heap, v: Value, name: Option<string>, d: int, s: Settings, retries: bool, body: seq<Token>)
    requires ValueBody(h, v, name, d, s, retries, body)
    ensures NamedRun(h, v, name, d, s, retries, NameTokens(name) + body)
  {
  }

  lemma ArrayRunIntro(h: Heap, id: nat, d: int, s: Settings, retries: bool, body: seq<Token>)
    requires id in h && d <= s.maxDepth && ArrayItemsRun(h, h[id].items, h[id].typ, d + 1, s, retries, body)
    ensures ArrayRun(h, id, d, s, retries, [StartArray] + body + [EndArray])
  {
  }

  lemma ObjectRunIntro(h: Heap, id: nat, d: int, s: Settings, retries: bool, runs: seq<seq<Token>>)
    requires id in h && d <= s.maxDepth && |runs| == |MemberSlots(h[id])|
    requires SlotRuns(h, MemberSlots(h[id]), d + 1, s, retries, runs)
    ensures ObjectRun(h, id, d, s, retries, [StartObject] + Flatten(runs) + [EndObject])
  {
  }

  // A run without a retried array is also a run that admits one: the retry
  // flag only widens the grammar.
  lemma {:induction false} ValueRunRetries(h: Heap, v: Value, name: Option<string>, d: int, s: Settings,
                                           isContainerType: bool, run: seq<Token>)
    requires ValueRun(h, v, name, d, s, isContainerType, false, run)
    ensures ValueRun(h, v, name, d, s, isContainerType, true, run)
    decreases Budget(s.maxDepth, d), 3
  {
    if NamedRun(h, v, name, d, s, false, run) {
      NamedRunRetries(h, v, name, d, s, run);
    }
  }

  lemma {:induction false} NamedRunRetries(h: Heap, v: Value, name: Option<string>, d: int, s: Settings, run: seq<Token>)
    requires NamedRun(h, v, name, d, s, false, run)
    ensures NamedRun(h, v, name, d, s, true, run)
    decreases Budget(s.maxDepth, d), 2
  {
    var body :| run == NameTokens(name) + body && ValueBody(h, v, name, d, s, false, body);
    ValueBodyRetries(h, v, name, d, s, body);
  }

  lemma {:induction false} ValueBodyRetries(h: Heap, v: Value, name: Option<string>, d: int, s: Settings, run: seq<Token>)
    requires ValueBody(h, v, name, d, s, false, run)
    ensures ValueBody(h, v, name, d, s, true, run)
    decreases Budget(s.maxDepth, d), 1
  {
    var k := GetJsonValueKind(h, v);
    if v.Ref? && h[v.id].typ.shape.EnumType? {
    } else if k == Array {
      ArrayRunRetries(h, v.id, d, s, run);
    } else if k == Object {
      ObjectRunRetries(h, v.id, d, s, run);
    }
  }

  lemma {:induction false} ArrayRunRetries(h: Heap, id: nat, d: int, s: Settings, run: seq<Token>)
    requires ArrayRun(h, id, d, s, false, run)
    ensures ArrayRun(h, id, d, s, true, run)
    decreases Budget(s.maxDepth, d), 0
  {
    var body :| run == [StartArray] + body + [EndArray] &&
      ArrayItemsRun(h, h[id].items, h[id].typ, d + 1, s, false, body);
    EnumRunRetries(h, h[id].items, d + 1, s, body);
  }

  lemma {:induction false} EnumRunRetries(h: Heap, items: seq<Value>, d: int, s: Settings, run: seq<Token>)
    requires EnumRun(h, items, d, s, false, run)
    ensures EnumRun(h, items, d, s, true, run)
    decreases Budget(s.maxDepth, d), 8
  {
    if s.textOrder {
      var keys :| TextKeyed(h, items, d, s, false, keys) &&
        ItemsRun(h, Values(SortByKey(keys, s.leq)), d, s, false, run);
      TextKeyedRetries(h, items, d, s, keys);
      ItemsRunRetries(h, Values(SortByKey(keys, s.leq)), d, s, run);
    } else {
      ItemsRunRetries(h, items, d, s, run);
    }
  }

  lemma {:induction false} TextKeyedRetries(h: Heap, items: seq<Value>, d: int, s: Settings, keys: seq<(string, Value)>)
    requires TextKeyed(h, items, d, s, false, keys)
    ensures TextKeyed(h, items, d, s, true, keys)
    decreases Budget(s.maxDepth, d), 7
  {
    forall i | 0 <= i < |items| ensures ElementTextOf(h, items[i], d, s, true, keys[i].0) {
      ElementTextOfRetries(h, items[i], d, s, keys[i].0);
    }
  }

  lemma {:induction false} ElementTextOfRetries(h: Heap, item: Value, d: int, s: Settings, text: string)
    requires ElementTextOf(h, item, d, s, false, text)
    ensures ElementTextOf(h, item, d, s, true, text)
    decreases Budget(s.maxDepth, d), 6
  {
    var t :| text == s.render(t) && ValueRun(h, item, None, 0, s.(maxDepth := s.maxDepth - d), false, false, t);
    ValueRunRetries(h, item, None, 0, s.(maxDepth := s.maxDepth - d), false, t);
  }

  lemma {:induction false} ItemsRunRetries(h: Heap, items: seq<Value>, d: int, s: Settings, run: seq<Token>)
    requires ItemsRun(h, items, d, s, false, run)
    ensures ItemsRun(h, items, d, s, true, run)
    decreases Budget(s.maxDepth, d), 5
  {
    var runs :| |runs| == |items| && run == Flatten(runs) && SlotRuns(h, ItemSlots(items), d, s, false, runs);
    SlotRunsRetries(h, ItemSlots(items), d, s, runs);
  }

  lemma {:induction false} ObjectRunRetries(h: Heap, id: nat, d: int, s: Settings, run: seq<Token>)
    requires ObjectRun(h, id, d, s, false, run)
    ensures ObjectRun(h, id, d, s, true, run)
    decreases Budget(s.maxDepth, d), 0
  {
    var runs :| |runs| == |MemberSlots(h[id])| && run == [StartObject] + Flatten(runs) + [EndObject] &&
      SlotRuns(h, MemberSlots(h[id]), d + 1, s, false, runs);
    SlotRunsRetries(h, MemberSlots(h[id]), d + 1, s, runs);
  }

  lemma {:induction false} SlotRunsRetries(h: Heap, slots: seq<Slot>, d: int, s: Settings, runs: seq<seq<Token>>)
    requires SlotRuns(h, slots, d, s, false, runs)
    ensures SlotRuns(h, slots, d, s, true, runs)
    decreases Budget(s.maxDepth, d), 4, |runs|
  {
    if runs != [] {
      var k := |runs| - 1;
      SlotRunsRetries(h, slots, d, s, runs[..k]);
      LastRunRetries(h, slots, d, s, runs);
    }
  }

  lemma {:induction false} LastRunRetries(h: Heap, slots: seq<Slot>, d: int, s: Settings, runs: seq<seq<Token>>)
    requires runs != [] && SlotRuns(h, slots, d, s, false, runs) && SlotRuns(h, slots, d, s, true, runs[..|runs| - 1])
    ensures SlotRuns(h, slots, d, s, true, runs)
    decreases Budget(s.maxDepth, d), 4, 0
  {
    var k := |runs| - 1;
    ValueRunRetries(h, slots[k].v, slots[k].name, d + NetDepth(Flatten(runs[..k])), s, slots[k].isContainerType, runs[k]);
    SlotRunsLast(h, slots, d, s, true, runs);
  }

  // The definition of SlotRuns read backwards, for a non-empty list of runs.
  lemma SlotRunsLast(h: Heap, slots: seq<Slot>, d: int, s: Settings, retries: bool, runs: seq<seq<Token>>)
    requires 0 < |runs| <= |slots|
    requires SlotRuns(h, slots, d, s, retries, runs[..|runs| - 1]) && NetDepth(Flatten(runs[..|runs| - 1])) >= 0
    requires ValueRun(h, slots[|runs| - 1].v, slots[|runs| - 1].name, d + NetDepth(Flatten(runs[..|runs| - 1])), s,
                      slots[|runs| - 1].isContainerType, retries, runs[|runs| - 1])
    ensures SlotRuns(h, slots, d, s, retries, runs)
  {
  }

  // A balanced body inside one pair of brackets, at a depth that may open them.
  lemma BracketsBounded(open: Token, body: seq<Token>, close: Token, d: int, maxDepth: int)
    requires Delta(open) == 1 && Delta(close) == -1 && d <= maxDepth
    requires NetDepth(body) == 0 && Nesting(body) <= Levels(d + 1, maxDepth)
    ensures NetDepth([open] + body + [close]) == 0 && Nesting([open] + body + [close]) <= Levels(d, maxDepth)
  {
    BracketedBounded(None, open, body, close, Levels(d + 1, maxDepth));
    assert NameTokens(None) + [open] + body + [close] == [open] + body + [close];
  }

  // Every run without a retried array is balanced and opens at most
  // Levels(d) levels of containers: the output never nests deeper than
  // maxDepth + 1 - d, and the writer ends where it started.
  lemma {:induction false} ValueRunBounded(h: Heap, v: Value, name: Option<string>, d: int, s: Settings,
                                           isContainerType: bool, run: seq<Token>)
    requires ValueRun(h, v, name, d, s, isContainerType, false, run)
    ensures NetDepth(run) == 0 && Nesting(run) <= Levels(d, s.maxDepth)
    decreases Budget(s.maxDepth, d), 3
  {
    if run != [] {
      var body :| run == NameTokens(name) + body && ValueBody(h, v, name, d, s, false, body);
      ValueBodyBounded(h, v, name, d, s, body);
      NamedBounded(name, body, Levels(d, s.maxDepth));
    }
  }

  lemma NamedBounded(name: Option<string>, body: seq<Token>, k: nat)
    requires NetDepth(body) == 0 && Nesting(body) <= k
    ensures NetDepth(NameTokens(name) + body) == 0 && Nesting(NameTokens(name) + body) <= k
  {
    NameTokensFlat(name);
    NetDepthAppend(NameTokens(name), body);
    NestingAppend(NameTokens(name), body);
  }

  lemma NameTokensFlat(name: Option<string>)
    ensures NetDepth(NameTokens(name)) == 0 && Nesting(NameTokens(name)) == 0
  {
    if name.Some? {
      assert NameTokens(name)[..0] == [];
    }
  }

  lemma {:induction false} ValueBodyBounded(h: Heap, v: Value, name: Option<string>, d: int, s: Settings, run: seq<Token>)
    requires ValueBody(h, v, name, d, s, false, run)
    ensures NetDepth(run) == 0 && Nesting(run) <= Levels(d, s.maxDepth)
    decreases Budget(s.maxDepth, d), 1
  {
    var k := GetJsonValueKind(h, v);
    if v.Ref? && h[v.id].typ.shape.EnumType? {
      FlatRun(run);
    } else if k == Array {
      ArrayRunBounded(h, v.id, d, s, run);
    } else if k == Object {
      ObjectRunBounded(h, v.id, d, s, run);
    } else {
      FlatRun(run);
    }
  }

  lemma {:induction false} ArrayRunBounded(h: Heap, id: nat, d: int, s: Settings, run: seq<Token>)
    requires ArrayRun(h, id, d, s, false, run)
    ensures NetDepth(run) == 0 && Nesting(run) <= Levels(d, s.maxDepth)
    decreases Budget(s.maxDepth, d), 0
  {
    var body :| run == [StartArray] + body + [EndArray] &&
      ArrayItemsRun(h, h[id].items, h[id].typ, d + 1, s, false, body);
    EnumRunBounded(h, h[id].items, d + 1, s, body);
    BracketsBounded(StartArray, body, EndArray, d, s.maxDepth);
  }

  lemma {:induction false} EnumRunBounded(h: Heap, items: seq<Value>, d: int, s: Settings, run: seq<Token>)
    requires EnumRun(h, items, d, s, false, run)
    ensures NetDepth(run) == 0 && Nesting(run) <= Levels(d, s.maxDepth)
    decreases Budget(s.maxDepth, d), 8
  {
    if s.textOrder {
      var keys :| TextKeyed(h, items, d, s, false, keys) &&
        ItemsRun(h, Values(SortByKey(keys, s.leq)), d, s, false, run);
      ItemsRunBounded(h, Values(SortByKey(keys, s.leq)), d, s, run);
    } else {
      ItemsRunBounded(h, items, d, s, run);
    }
  }

  lemma {:induction false} ItemsRunBounded(h: Heap, items: seq<Value>, d: int, s: Settings, run: seq<Token>)
    requires ItemsRun(h, items, d, s, false, run)
    ensures NetDepth(run) == 0 && Nesting(run) <= Levels(d, s.maxDepth)
    decreases Budget(s.maxDepth, d), 5
  {
    var runs :| |runs| == |items| && run == Flatten(runs) && SlotRuns(h, ItemSlots(items), d, s, false, runs);
    SlotRunsBounded(h, ItemSlots(items), d, s, runs);
    FlattenBounded(runs, Levels(d, s.maxDepth));
  }

  lemma {:induction false} ObjectRunBounded(h: Heap, id: nat, d: int, s: Settings, run: seq<Token>)
    requires ObjectRun(h, id, d, s, false, run)
    ensures NetDepth(run) == 0 && Nesting(run) <= Levels(d, s.maxDepth)
    decreases Budget(s.maxDepth, d), 0
  {
    var runs :| |runs| == |MemberSlots(h[id])| && run == [StartObject] + Flatten(runs) + [EndObject] &&
      SlotRuns(h, MemberSlots(h[id]), d + 1, s, false, runs);
    SlotRunsBounded(h, MemberSlots(h[id]), d + 1, s, runs);
    FlattenBounded(runs, Levels(d + 1, s.maxDepth));
    BracketsBounded(StartObject, Flatten(runs), EndObject, d, s.maxDepth);
  }

  // Without retries every slot starts at d: the runs before it are balanced.
  lemma {:induction false} SlotRunsBounded(h: Heap, slots: seq<Slot>, d: int, s: Settings, runs: seq<seq<Token>>)
    requires SlotRuns(h, slots, d, s, false, runs)
    ensures forall j :: 0 <= j < |runs| ==> NetDepth(runs[j]) == 0 && Nesting(runs[j]) <= Levels(d, s.maxDepth)
    decreases Budget(s.maxDepth, d), 4, |runs|
  {
    if runs != [] {
      var k := |runs| - 1;
      var init := runs[..k];
      SlotRunsBounded(h, slots, d, s, init);
      FlattenBounded(init, Levels(d, s.maxDepth));
      LastRunBounded(h, slots, d, s, runs);
      forall j | 0 <= j < |runs| ensures NetDepth(runs[j]) == 0 && Nesting(runs[j]) <= Levels(d, s.maxDepth) {
        if j < k {
          assert runs[j] == init[j];
        }
      }
    }
  }

  // The last run of a loop whose earlier runs are balanced together starts
  // at the loop's depth, so it is balanced and bounded as well.
  lemma {:induction false} LastRunBounded(h: Heap, slots: seq<Slot>, d: int, s: Settings, runs: seq<seq<Token>>)
    requires runs != [] && SlotRuns(h, slots, d, s, false, runs)
    requires NetDepth(Flatten(runs[..|runs| - 1])) == 0
    ensures NetDepth(runs[|runs| - 1]) == 0 && Nesting(runs[|runs| - 1]) <= Levels(d, s.maxDepth)
    decreases Budget(s.maxDepth, d), 4, 0
  {
    var k := |runs| - 1;
    ValueRunBounded(h, slots[k].v, slots[k].name, d, s, slots[k].isContainerType, runs[k]);
  }

  // With text ordering the elements come out each once, in ascending order
  // of the texts they serialize to alone.
  lemma TextOrderedRun(h: Heap, items: seq<Value>, d: int, s: Settings, retries: bool, run: seq<Token>)
    requires s.textOrder && TotalPreorder(s.leq) && EnumRun(h, items, d, s, retries, run)
    ensures exists keys :: (TextKeyed(h, items, d, s, retries, keys) &&
      multiset(SortByKey(keys, s.leq)) == multiset(keys) && SortedByKey(SortByKey(keys, s.leq), s.leq) &&
      ItemsRun(h, Values(SortByKey(keys, s.leq)), d, s, retries, run))
  {
    var keys :| TextKeyed(h, items, d, s, retries, keys) && ItemsRun(h, Values(SortByKey(keys, s.leq)), d, s, retries, run);
    SortByKeySorted(keys, s.leq);
  }

  // The open containers that the tokens do not account for: every call of
  // the writer keeps it.
  ghost function Drift(open: seq<Container>, tokens: seq<Token>): int
  {
    |open| - NetDepth(tokens)
  }

  lemma NetDepthSnoc(ts: seq<Token>, t: Token)
    ensures NetDepth(ts + [t]) == NetDepth(ts) + Delta(t)
  {
    assert (ts + [t])[..|ts|] == ts;
  }

  lemma AppendAssoc(a: seq<Token>, b: seq<Token>, c: seq<Token>)
    ensures a + b + c == a + (b + c)
  {
  }

  lemma AppendBracketed(a: seq<Token>, open: Token, body: seq<Token>, close: Token)
    ensures a + [open] + body + [close] == a + ([open] + body + [close])
  {
  }

  lemma PrefixOfSameLength<T>(a: seq<T>, b: seq<T>)
    requires a <= b && |a| == |b|
    ensures a == b
  {
  }

  lemma SplitAfterPrefix(t0: seq<Token>, t: seq<Token>)
    requires t0 <= t
    ensures t == t0 + t[|t0|..]
  {
  }

  // A loop's runs so far grow by the run of the call just made.
  lemma RunsSnoc(t00: seq<Token>, t0: seq<Token>, t1: seq<Token>, runs: seq<seq<Token>>, run: seq<Token>)
    requires t0 == t00 + Flatten(runs) && t1 == t0 + run
    ensures t1 == t00 + Flatten(runs + [run])
  {
    FlattenSnoc(runs, run);
    AppendAssoc(t00, Flatten(runs), run);
  }

  // The depth a loop's next call starts at.
  lemma LoopDepth(jw: JsonWriter, t0: seq<Token>, o0: seq<Container>, runs: seq<seq<Token>>)
    requires jw.tokens == t0 + Flatten(runs) && o0 <= jw.open && |jw.open| - NetDepth(jw.tokens) == |o0| - NetDepth(t0)
    ensures jw.Depth() == |o0| + NetDepth(Flatten(runs)) && NetDepth(Flatten(runs)) >= 0
  {
    NetDepthAppend(t0, Flatten(runs));
  }

  // The protected Serialize: one value under an optional property name.
  method SerializeValue(h: Heap, obj: Value, name: Option<string>, jw: JsonWriter, s: Settings,
                        hc: HashCodeList, isContainerType: bool)
    returns (r: Outcome<Failure>, ghost run: seq<Token>, ghost retried: bool)
    requires WellFormed(h) && Valid(h, obj) && TotalPreorder(s.leq)
    modifies jw, hc
    decreases Budget(s.maxDepth, jw.Depth()), 3
    ensures Appends(old(jw.tokens), jw.tokens, s.ignore) && Drift(jw.open, jw.tokens) == Drift(old(jw.open), old(jw.tokens))
    ensures old(hc.codes) <= hc.codes && old(jw.open) <= jw.open
    ensures old(Skipped(jw, s, name)) ==> r.Pass? && unchanged(jw) && unchanged(hc)
    ensures !old(Skipped(jw, s, name)) && old(Suppressed(h, obj, hc)) ==>
      r.Pass? && unchanged(jw) && unchanged(hc)
    ensures !old(Skipped(jw, s, name)) && IsContainerKind(GetJsonValueKind(h, obj)) && !old(Suppressed(h, obj, hc)) ==>
      |hc.codes| > |old(hc.codes)| && hc.codes[|old(hc.codes)|] == obj.id
    ensures !IsContainerKind(GetJsonValueKind(h, obj)) ==> unchanged(hc)
    ensures !old(Skipped(jw, s, name)) && isContainerType && obj.Null? ==> r.Pass? && unchanged(jw)
    ensures (!old(Skipped(jw, s, name)) && GetJsonValueKind(h, obj) == Undefined &&
      !h[obj.id].typ.shape.EnumType? && name.None?) ==> r.Pass? && unchanged(jw)
    ensures !old(Skipped(jw, s, name)) && ScalarCase(h, obj, name, isContainerType) ==> (
      (r.Pass? ==> jw.tokens == old(jw.tokens) + NameTokens(name) + [ScalarToken(h, obj)]) &&
      (old(Ready(jw, name)) && !Overflows(h, obj) ==> r.Pass?) &&
      (old(Ready(jw, name)) && Overflows(h, obj) ==> r == Fail(NumberOverflow)))
    ensures (!old(Skipped(jw, s, name)) && !old(Suppressed(h, obj, hc)) && IsContainerKind(GetJsonValueKind(h, obj)) &&
      r.Pass?) ==> ContainerWritten(run, name, GetJsonValueKind(h, obj))
    ensures (!old(Skipped(jw, s, name)) && !old(Suppressed(h, obj, hc)) && GetJsonValueKind(h, obj) == Array &&
      !CastsToObjectEnumerable(h[obj.id].typ) && !HasGenericArgument(h[obj.id].typ)) ==> r.Fail?
    ensures r.Pass? ==> (jw.tokens == old(jw.tokens) + run &&
      ValueRun(h, obj, name, old(jw.Depth()), s, isContainerType, retried, run))
    ensures (!old(Skipped(jw, s, name)) && !old(Suppressed(h, obj, hc)) && IsContainerKind(GetJsonValueKind(h, obj)) &&
      r.Pass?) ==> NamedRun(h, obj, name, old(jw.Depth()), s, retried, run)
    ensures r.Pass? && !retried ==> jw.open == old(jw.open)
  {
    run, retried := [], false;
    if jw.Depth() > s.maxDepth || (name.Some? && name.value in s.ignore) {
      return Pass, [], false;
    }
    var kind := GetJsonValueKind(h, obj);
    if IsContainerKind(kind) {
      if obj.id in hc.codes {
        return Pass, [], false;
      }
      hc.codes := hc.codes + [obj.id];
    }
    if isContainerType && kind == JsonValueKind.Null {
      return Pass, [], false;
    }
    r, run, retried := WriteNamedValue(h, obj, name, jw, s, hc);
    if r.Pass? {
      ValueRunOfNamed(h, obj, name, old(jw.Depth()), s, isContainerType, retried, run);
    }
  }

  // Past the tests for depth, ignored names and null containers, a value's
  // run is its NamedRun.
  lemma ValueRunOfNamed(h: Heap, v: Value, name: Option<string>, d: int, s: Settings, isContainerType: bool,
                        retries: bool, run: seq<Token>)
    requires Valid(h, v) && d <= s.maxDepth && !(name.Some? && name.value in s.ignore)
    requires !(isContainerType && GetJsonValueKind(h, v) == JsonValueKind.Null)
    requires NamedRun(h, v, name, d, s, retries, run)
    ensures ValueRun(h, v, name, d, s, isContainerType, retries, run)
  {
  }

  // A run without a retried array closes every container it opens, so the
  // writer is back at the depth the run started at.
  lemma DepthRestored(h: Heap, obj: Value, name: Option<string>, s: Settings,
                      t0: seq<Token>, o0: seq<Container>, t1: seq<Token>, o1: seq<Container>, run: seq<Token>)
    requires NamedRun(h, obj, name, |o0|, s, false, run)
    requires t1 == t0 + run && o0 <= o1 && |o1| - NetDepth(t1) == |o0| - NetDepth(t0)
    ensures o1 == o0
  {
    var body :| run == NameTokens(name) + body && ValueBody(h, obj, name, |o0|, s, false, body);
    ValueBodyBounded(h, obj, name, |o0|, s, body);
    NameTokensFlat(name);
    NetDepthAppend(NameTokens(name), body);
    NetDepthAppend(t0, run);
    PrefixOfSameLength(o0, o1);
  }

  // [ or { first, and ] or } last.
  ghost predicate Bracketed(run: seq<Token>, k: JsonValueKind)
  {
    |run| >= 2 && run[0] == (if k == Array then StartArray else StartObject) &&
    run[|run| - 1] == (if k == Array then EndArray else EndObject)
  }

  // The name, then [ or {, and finally ] or }.
  ghost predicate ContainerWritten(run: seq<Token>, name: Option<string>, k: JsonValueKind)
  {
    |run| >= |NameTokens(name)| && run[..|NameTokens(name)|] == NameTokens(name) &&
    Bracketed(run[|NameTokens(name)|..], k)
  }

  lemma ContainerWrittenIntro(name: Option<string>, body: seq<Token>, k: JsonValueKind)
    requires Bracketed(body, k)
    ensures ContainerWritten(NameTokens(name) + body, name, k)
  {
    var run := NameTokens(name) + body;
    assert run[..|NameTokens(name)|] == NameTokens(name) && run[|NameTokens(name)|..] == body;
  }

  // Serialize once the value is known to be written: the property name,
  // then the value.
  method WriteNamedValue(h: Heap, obj: Value, name: Option<string>, jw: JsonWriter, s: Settings,
                         hc: HashCodeList) returns (r: Outcome<Failure>, ghost run: seq<Token>, ghost retried: bool)
    requires WellFormed(h) && Valid(h, obj) && TotalPreorder(s.leq)
    requires !Skipped(jw, s, name)
    modifies jw, hc
    decreases Budget(s.maxDepth, jw.Depth()), 2
    ensures Appends(old(jw.tokens), jw.tokens, s.ignore) && Drift(jw.open, jw.tokens) == Drift(old(jw.open), old(jw.tokens))
    ensures old(hc.codes) <= hc.codes && old(jw.open) <= jw.open
    ensures !IsContainerKind(GetJsonValueKind(h, obj)) ==> unchanged(hc)
    ensures (GetJsonValueKind(h, obj) == Undefined && !h[obj.id].typ.shape.EnumType? && name.None?) ==>
      r.Pass? && unchanged(jw)
    ensures ScalarCase(h, obj, name, false) ==> (
      (r.Pass? ==> jw.tokens == old(jw.tokens) + NameTokens(name) + [ScalarToken(h, obj)]) &&
      (old(Ready(jw, name)) && !Overflows(h, obj) ==> r.Pass?) &&
      (old(Ready(jw, name)) && Overflows(h, obj) ==> r == Fail(NumberOverflow)))
    ensures (IsContainerKind(GetJsonValueKind(h, obj)) && r.Pass?) ==> ContainerWritten(run, name, GetJsonValueKind(h, obj))
    ensures (GetJsonValueKind(h, obj) == Array &&
      !CastsToObjectEnumerable(h[obj.id].typ) && !HasGenericArgument(h[obj.id].typ)) ==> r.Fail?
    ensures r.Pass? ==> jw.tokens == old(jw.tokens) + run && NamedRun(h, obj, name, old(jw.Depth()), s, retried, run)
    ensures r.Pass? && !retried ==> jw.open == old(jw.open)
  {
    if name.Some? {
      r := WriteName(jw, name.value, s.ignore);
      if r.Fail? {
        return r, [], false;
      }
    }
    ghost var t1 := jw.tokens;
    ghost var body;
    r, body, retried := WriteValue(h, obj, name, jw, s, hc);
    run := NameTokens(name) + body;
    AppendsTrans(old(jw.tokens), t1, jw.tokens, s.ignore);
    if r.Pass? {
      NamedValueFacts(h, obj, name, s, old(jw.tokens), old(jw.open), t1, jw.tokens, jw.open, retried, body);
    }
  }

  // WritePropertyName.
  method WriteName(jw: JsonWriter, name: string, ignore: set<string>) returns (r: Outcome<Failure>)
    requires name !in ignore
    modifies jw
    ensures Appends(old(jw.tokens), jw.tokens, ignore) && Drift(jw.open, jw.tokens) == Drift(old(jw.open), old(jw.tokens))
    ensures r.Pass? == old(jw.AcceptsName())
    ensures r.Pass? ==> jw.tokens == old(jw.tokens) + [PropertyName(name)] && jw.open == old(jw.open) && jw.AcceptsValue()
    ensures r.Fail? ==> unchanged(jw) && r == Fail(WriterRejected(PropertyName(name)))
  {
    AppendsToken(jw.tokens, PropertyName(name), ignore);
    NetDepthSnoc(jw.tokens, PropertyName(name));
    var ok := jw.WritePropertyName(Some(name));
    r := if ok then Pass else Fail(WriterRejected(PropertyName(name)));
  }

  // What WriteNamedValue's run is once its value has been written: the name
  // and the body together, the value's NamedRun, a bracketed container, and
  // without a retry the writer back where it started.
  lemma NamedValueFacts(h: Heap, obj: Value, name: Option<string>, s: Settings, t0: seq<Token>, o0: seq<Container>,
                        t1: seq<Token>, t2: seq<Token>, o2: seq<Container>, retried: bool, body: seq<Token>)
    requires t1 == t0 + NameTokens(name) && t2 == t1 + body
    requires ValueBody(h, obj, name, |o0|, s, retried, body)
    requires IsContainerKind(GetJsonValueKind(h, obj)) ==> Bracketed(body, GetJsonValueKind(h, obj))
    requires o0 <= o2 && |o2| - NetDepth(t2) == |o0| - NetDepth(t0)
    ensures t2 == t0 + (NameTokens(name) + body)
    ensures NamedRun(h, obj, name, |o0|, s, retried, NameTokens(name) + body)
    ensures IsContainerKind(GetJsonValueKind(h, obj)) ==>
      ContainerWritten(NameTokens(name) + body, name, GetJsonValueKind(h, obj))
    ensures !retried ==> o2 == o0
  {
    AppendAssoc(t0, NameTokens(name), body);
    NamedRunIntro(h, obj, name, |o0|, s, retried, body);
    if IsContainerKind(GetJsonValueKind(h, obj)) {
      ContainerWrittenIntro(name, body, GetJsonValueKind(h, obj));
    }
    if !retried {
      DepthRestored(h, obj, name, s, t0, o0, t2, o2, NameTokens(name) + body);
    }
  }

  // The value after its name: an enum by its name, then by its kind.
  method WriteValue(h: Heap, obj: Value, name: Option<string>, jw: JsonWriter, s: Settings,
                    hc: HashCodeList) returns (r: Outcome<Failure>, ghost run: seq<Token>, ghost retried: bool)
    requires WellFormed(h) && Valid(h, obj) && TotalPreorder(s.leq)
    requires jw.Depth() <= s.maxDepth
    modifies jw, hc
    decreases Budget(s.maxDepth, jw.Depth()), 1
    ensures Appends(old(jw.tokens), jw.tokens, s.ignore) && Drift(jw.open, jw.tokens) == Drift(old(jw.open), old(jw.tokens))
    ensures old(hc.codes) <= hc.codes && old(jw.open) <= jw.open
    ensures !IsContainerKind(GetJsonValueKind(h, obj)) ==> unchanged(hc)
    ensures (GetJsonValueKind(h, obj) == Undefined && !h[obj.id].typ.shape.EnumType? && name.None?) ==>
      r.Pass? && unchanged(jw)
    ensures ScalarCase(h, obj, name, false) ==> (
      (r.Pass? ==> jw.tokens == old(jw.tokens) + [ScalarToken(h, obj)]) &&
      (old(jw.AcceptsValue()) && !Overflows(h, obj) ==> r.Pass?) &&
      (old(jw.AcceptsValue()) && Overflows(h, obj) ==> r == Fail(NumberOverflow)))
    ensures (IsContainerKind(GetJsonValueKind(h, obj)) && r.Pass?) ==> Bracketed(run, GetJsonValueKind(h, obj))
    ensures (GetJsonValueKind(h, obj) == Array &&
      !CastsToObjectEnumerable(h[obj.id].typ) && !HasGenericArgument(h[obj.id].typ)) ==> r.Fail?
    ensures r.Pass? ==> jw.tokens == old(jw.tokens) + run && ValueBody(h, obj, name, old(jw.Depth()), s, retried, run)
  {
    var kind := GetJsonValueKind(h, obj);
    retried := false;
    if obj.Ref? && h[obj.id].typ.shape.EnumType? {
      r := WriteToken(jw, ScalarToken(h, obj), s.ignore);
      run := [ScalarToken(h, obj)];
    } else if kind == Array {
      r, run, retried := WriteArrayValue(h, obj.id, jw, s, hc);
    } else if kind == Object {
      r, run, retried := WriteObjectValue(h, obj.id, jw, s, hc);
    } else {
      r := WriteScalarValue(h, obj, name, jw, s.ignore);
      run := if kind == Undefined && name.None? then [] else [ScalarToken(h, obj)];
    }
  }

  // The value cases of WriteValue that are neither an enum nor a container:
  // Undefined without a name writes nothing, a number whose decimal text
  // overflows throws, anything else is one token.
  method WriteScalarValue(h: Heap, obj: Value, name: Option<string>, jw: JsonWriter, ignore: set<string>)
    returns (r: Outcome<Failure>)
    requires Valid(h, obj)
    requires !(obj.Ref? && h[obj.id].typ.shape.EnumType?) && !IsContainerKind(GetJsonValueKind(h, obj))
    modifies jw
    ensures Appends(old(jw.tokens), jw.tokens, ignore) && jw.open == old(jw.open) && Drift(jw.open, jw.tokens) == Drift(old(jw.open), old(jw.tokens))
    ensures GetJsonValueKind(h, obj) == Undefined && name.None? ==> r.Pass? && unchanged(jw)
    ensures ScalarCase(h, obj, name, false) ==> (
      (r.Pass? ==> jw.tokens == old(jw.tokens) + [ScalarToken(h, obj)]) &&
      (old(jw.AcceptsValue()) && !Overflows(h, obj) ==> r.Pass?) &&
      (old(jw.AcceptsValue()) && Overflows(h, obj) ==> r == Fail(NumberOverflow)))
    ensures Overflows(h, obj) ==> r == Fail(NumberOverflow) && unchanged(jw)
  {
    var kind := GetJsonValueKind(h, obj);
    if kind == Undefined && name.None? {
      r := Pass;
    } else if kind == Number && h[obj.id].scalar.decimalText.None? {
      r := Fail(NumberOverflow);
    } else {
      r := WriteToken(jw, ScalarToken(h, obj), ignore);
    }
  }

  method WriteToken(jw: JsonWriter, t: Token, ignore: set<string>) returns (r: Outcome<Failure>)
    requires Delta(t) == 0 && !t.PropertyName? && !t.NullPropertyName?
    modifies jw
    ensures r.Pass? == old(jw.AcceptsValue())
    ensures r.Pass? ==> jw.tokens == old(jw.tokens) + [t] && jw.open == old(jw.open)
    ensures r.Fail? ==> unchanged(jw) && r == Fail(WriterRejected(t))
    ensures Appends(old(jw.tokens), jw.tokens, ignore) && Drift(jw.open, jw.tokens) == Drift(old(jw.open), old(jw.tokens))
  {
    AppendsToken(jw.tokens, t, ignore);
    NetDepthSnoc(jw.tokens, t);
    var ok := jw.WriteScalar(t);
    r := if ok then Pass else Fail(WriterRejected(t));
  }

  // WriteStartArray or WriteStartObject.
  method OpenContainer(jw: JsonWriter, c: Container, ignore: set<string>) returns (r: Outcome<Failure>)
    modifies jw
    ensures Appends(old(jw.tokens), jw.tokens, ignore) && Drift(jw.open, jw.tokens) == Drift(old(jw.open), old(jw.tokens))
    ensures r.Pass? == old(jw.AcceptsValue())
    ensures r.Pass? ==> jw.tokens == old(jw.tokens) + [OpenToken(c)] && jw.open == old(jw.open) + [c]
    ensures r.Fail? ==> unchanged(jw) && r == Fail(WriterRejected(OpenToken(c)))
  {
    AppendsToken(jw.tokens, OpenToken(c), ignore);
    NetDepthSnoc(jw.tokens, OpenToken(c));
    var ok := jw.WriteStart(c);
    r := if ok then Pass else Fail(WriterRejected(OpenToken(c)));
  }

  // WriteEndArray or WriteEndObject, once the container opened on top of o0
  // has had its contents written.
  method CloseContainer(jw: JsonWriter, c: Container, ignore: set<string>, ghost o0: seq<Container>)
    returns (r: Outcome<Failure>)
    requires o0 + [c] <= jw.open
    modifies jw
    ensures Appends(old(jw.tokens), jw.tokens, ignore) && Drift(jw.open, jw.tokens) == Drift(old(jw.open), old(jw.tokens))
    ensures o0 <= jw.open
    ensures r.Pass? ==> jw.tokens == old(jw.tokens) + [CloseToken(c)]
    ensures r.Fail? ==> unchanged(jw) && r == Fail(WriterRejected(CloseToken(c)))
  {
    AppendsToken(jw.tokens, CloseToken(c), ignore);
    NetDepthSnoc(jw.tokens, CloseToken(c));
    PopKeepsPrefix(o0, c, jw.open);
    var ok := jw.WriteEnd(c);
    r := if ok then Pass else Fail(WriterRejected(CloseToken(c)));
  }

  function OpenToken(c: Container): Token
  {
    if c == InObject then StartObject else StartArray
  }

  function CloseToken(c: Container): Token
  {
    if c == InObject then EndObject else EndArray
  }

  lemma PopKeepsPrefix(o0: seq<Container>, c: Container, o: seq<Container>)
    requires o0 + [c] <= o
    ensures o0 <= o[..|o| - 1]
  {
    assert o0 == (o0 + [c])[..|o0|];
  }

  // [, the elements, ]. The elements go through SerializeEnumerable over
  // IEnumerable<object>; when that cast fails or anything inside throws, a
  // second SerializeEnumerable through reflection starts from wherever the
  // first one stopped, and needs the type's first generic argument.
  method WriteArrayValue(h: Heap, id: nat, jw: JsonWriter, s: Settings, hc: HashCodeList)
    returns (r: Outcome<Failure>, ghost run: seq<Token>, ghost retried: bool)
    requires WellFormed(h) && id in h && TotalPreorder(s.leq)
    requires jw.Depth() <= s.maxDepth
    modifies jw, hc
    decreases Budget(s.maxDepth, jw.Depth()), 0
    ensures Appends(old(jw.tokens), jw.tokens, s.ignore) && Drift(jw.open, jw.tokens) == Drift(old(jw.open), old(jw.tokens))
    ensures old(hc.codes) <= hc.codes && old(jw.open) <= jw.open
    ensures r.Pass? ==> Bracketed(run, Array)
    ensures !CastsToObjectEnumerable(h[id].typ) && !HasGenericArgument(h[id].typ) ==> r.Fail?
    ensures r.Pass? ==> jw.tokens == old(jw.tokens) + run && ArrayRun(h, id, old(jw.Depth()), s, retried, run)
  {
    run, retried := [], false;
    r := OpenContainer(jw, InArray, s.ignore);
    if r.Fail? {
      return;
    }
    ghost var t1 := jw.tokens;
    var n := h[id];
    ItemsValid(h, n);
    ghost var body;
    r, body, retried := WriteArrayItems(h, n.items, n.typ, jw, s, hc);
    AppendsTrans(old(jw.tokens), t1, jw.tokens, s.ignore);
    if r.Fail? {
      return;
    }
    ghost var t3 := jw.tokens;
    r := CloseContainer(jw, InArray, s.ignore, old(jw.open));
    AppendsTrans(old(jw.tokens), t3, jw.tokens, s.ignore);
    if r.Fail? {
      return;
    }
    run := [StartArray] + body + [EndArray];
    AppendBracketed(old(jw.tokens), StartArray, body, EndArray);
    ArrayRunIntro(h, id, old(jw.Depth()), s, retried, body);
  }

  // The elements of an array: through the cast to an enumerable of objects
  // when the type allows it, otherwise (or when that attempt throws) through
  // the generic path, which needs the type's generic argument. `retried` is
  // set when the cast path failed here or a retry happened further in.
  method WriteArrayItems(h: Heap, items: seq<Value>, typ: TypeDesc, jw: JsonWriter, s: Settings, hc: HashCodeList)
    returns (r: Outcome<Failure>, ghost run: seq<Token>, ghost retried: bool)
    requires WellFormed(h) && TotalPreorder(s.leq) && forall j :: 0 <= j < |items| ==> Valid(h, items[j])
    modifies jw, hc
    decreases Budget(s.maxDepth, jw.Depth()), 7
    ensures Appends(old(jw.tokens), jw.tokens, s.ignore) && Drift(jw.open, jw.tokens) == Drift(old(jw.open), old(jw.tokens))
    ensures old(hc.codes) <= hc.codes && old(jw.open) <= jw.open
    ensures !CastsToObjectEnumerable(typ) && !HasGenericArgument(typ) ==> r.Fail?
    ensures r.Pass? ==> jw.tokens == old(jw.tokens) + run && ArrayItemsRun(h, items, typ, old(jw.Depth()), s, retried, run)
  {
    var failed := true;
    retried := false;
    if CastsToObjectEnumerable(typ) {
      r, run, retried := SerializeEnumerable(h, items, jw, s, hc);
      failed := r.Fail?;
    }
    if failed {
      if !HasGenericArgument(typ) {
        return Fail(NoGenericArgument), [], false;
      }
      ghost var t2 := jw.tokens;
      ghost var c2 := hc.codes;
      ghost var o2 := jw.open;
      ghost var again, againRetried;
      r, again, againRetried := SerializeEnumerable(h, items, jw, s, hc);
      AppendsTrans(old(jw.tokens), t2, jw.tokens, s.ignore);
      PrefixTrans(old(hc.codes), c2, hc.codes);
      PrefixTrans(old(jw.open), o2, jw.open);
      if r.Fail? {
        return Fail(Invocation(r.error)), [], false;
      }
      if !CastsToObjectEnumerable(typ) {
        run, retried := again, againRetried;
      } else {
        RetriedItems(h, items, typ, old(jw.Depth()), s, old(jw.tokens), old(jw.open), t2, o2, jw.tokens,
                     againRetried, again);
        run, retried := jw.tokens[|old(jw.tokens)|..], true;
        SplitAfterPrefix(old(jw.tokens), jw.tokens);
      }
    }
  }

  // The reflection path after a failed cast path: the tokens the failed
  // attempt left, then the second enumeration from the depth they left.
  lemma RetriedItems(h: Heap, items: seq<Value>, typ: TypeDesc, d: int, s: Settings, t0: seq<Token>, o0: seq<Container>,
                     t2: seq<Token>, o2: seq<Container>, t3: seq<Token>, againRetried: bool, again: seq<Token>)
    requires CastsToObjectEnumerable(typ) && HasGenericArgument(typ)
    requires d == |o0| && t0 <= t2 && o0 <= o2 && |o2| - NetDepth(t2) == |o0| - NetDepth(t0)
    requires t3 == t2 + again && EnumRun(h, items, |o2|, s, againRetried, again)
    ensures t0 <= t3 && ArrayItemsRun(h, items, typ, d, s, true, t3[|t0|..])
  {
    var partial := t2[|t0|..];
    SplitAfterPrefix(t0, t2);
    NetDepthAppend(t0, partial);
    if !againRetried {
      EnumRunRetries(h, items, |o2|, s, again);
    }
    RetryRun(h, items, typ, d, s, t0, partial, again);
  }

  lemma RetryRun(h: Heap, items: seq<Value>, typ: TypeDesc, d: int, s: Settings, t0: seq<Token>,
                 partial: seq<Token>, again: seq<Token>)
    requires CastsToObjectEnumerable(typ) && HasGenericArgument(typ) && NetDepth(partial) >= 0
    requires EnumRun(h, items, d + NetDepth(partial), s, true, again)
    ensures t0 <= t0 + partial + again && ArrayItemsRun(h, items, typ, d, s, true, (t0 + partial + again)[|t0|..])
  {
    var run := (t0 + partial + again)[|t0|..];
    assert run == partial + again;
    assert run[..|partial|] == partial && run[|partial|..] == again;
    assert RetriedAt(h, items, d, s, run, |partial|);
  }

  // {, the entries of a dictionary or the properties of an object, }.
  method WriteObjectValue(h: Heap, id: nat, jw: JsonWriter, s: Settings, hc: HashCodeList)
    returns (r: Outcome<Failure>, ghost run: seq<Token>, ghost retried: bool)
    requires WellFormed(h) && id in h && TotalPreorder(s.leq)
    requires jw.Depth() <= s.maxDepth
    modifies jw, hc
    decreases Budget(s.maxDepth, jw.Depth()), 0
    ensures Appends(old(jw.tokens), jw.tokens, s.ignore) && Drift(jw.open, jw.tokens) == Drift(old(jw.open), old(jw.tokens))
    ensures old(hc.codes) <= hc.codes && old(jw.open) <= jw.open
    ensures r.Pass? ==> Bracketed(run, Object)
    ensures r.Pass? ==> jw.tokens == old(jw.tokens) + run && ObjectRun(h, id, old(jw.Depth()), s, retried, run)
  {
    run, retried := [], false;
    r := OpenContainer(jw, InObject, s.ignore);
    if r.Fail? {
      return;
    }
    ghost var t1 := jw.tokens;
    ghost var runs;
    r, runs, retried := WriteMembers(h, h[id], jw, s, hc);
    AppendsTrans(old(jw.tokens), t1, jw.tokens, s.ignore);
    if r.Fail? {
      return;
    }
    ghost var t3 := jw.tokens;
    r := CloseContainer(jw, InObject, s.ignore, old(jw.open));
    AppendsTrans(old(jw.tokens), t3, jw.tokens, s.ignore);
    if r.Fail? {
      return;
    }
    run := [StartObject] + Flatten(runs) + [EndObject];
    AppendBracketed(old(jw.tokens), StartObject, Flatten(runs), EndObject);
    ObjectRunIntro(h, id, old(jw.Depth()), s, retried, runs);
  }

  // The members of an object: the entries of a dictionary, or else the
  // properties.
  method WriteMembers(h: Heap, n: Node, jw: JsonWriter, s: Settings, hc: HashCodeList)
    returns (r: Outcome<Failure>, ghost runs: seq<seq<Token>>, ghost retried: bool)
    requires WellFormed(h) && NodeClosed(h, n) && TotalPreorder(s.leq)
    modifies jw, hc
    decreases Budget(s.maxDepth, jw.Depth()), 6
    ensures Appends(old(jw.tokens), jw.tokens, s.ignore) && Drift(jw.open, jw.tokens) == Drift(old(jw.open), old(jw.tokens))
    ensures old(hc.codes) <= hc.codes && old(jw.open) <= jw.open
    ensures r.Pass? ==> (|runs| == |MemberSlots(n)| && jw.tokens == old(jw.tokens) + Flatten(runs) &&
      SlotRuns(h, MemberSlots(n), old(jw.Depth()), s, retried, runs))
  {
    if IsIDictionary(n.typ) {
      forall j | 0 <= j < |n.entries| ensures Valid(h, n.entries[j].1) {
        EntryValid(h, n, j);
      }
      r, runs, retried := WriteEntries(h, n.entries, jw, s, hc);
    } else {
      forall j | 0 <= j < |n.props| ensures Valid(h, n.props[j].value) {
        PropValueValid(h, n, j);
      }
      r, runs, retried := WriteProps(h, n.props, jw, s, hc);
    }
  }

  // Each entry under its key's text; an entry is never treated as typed by
  // a container.
  method WriteEntries(h: Heap, entries: seq<(string, Value)>, jw: JsonWriter, s: Settings, hc: HashCodeList)
    returns (r: Outcome<Failure>, ghost runs: seq<seq<Token>>, ghost retried: bool)
    requires WellFormed(h) && TotalPreorder(s.leq) && forall j :: 0 <= j < |entries| ==> Valid(h, entries[j].1)
    modifies jw, hc
    decreases Budget(s.maxDepth, jw.Depth()), 5
    ensures Appends(old(jw.tokens), jw.tokens, s.ignore) && Drift(jw.open, jw.tokens) == Drift(old(jw.open), old(jw.tokens))
    ensures old(hc.codes) <= hc.codes && old(jw.open) <= jw.open
    ensures r.Pass? ==> (|runs| == |entries| && jw.tokens == old(jw.tokens) + Flatten(runs) &&
      SlotRuns(h, EntrySlots(entries), old(jw.Depth()), s, retried, runs))
  {
    runs, retried := [], false;
    var i := 0;
    while i < |entries|
      invariant 0 <= i <= |entries| && |runs| == i
      invariant Appends(old(jw.tokens), jw.tokens, s.ignore) && Drift(jw.open, jw.tokens) == Drift(old(jw.open), old(jw.tokens))
      invariant old(hc.codes) <= hc.codes && old(jw.open) <= jw.open
      invariant jw.tokens == old(jw.tokens) + Flatten(runs)
      invariant SlotRuns(h, EntrySlots(entries), old(jw.Depth()), s, retried, runs)
    {
      assert EntrySlots(entries)[i] == Slot(entries[i].1, Some(entries[i].0), false);
      r, runs, retried := SlotStep(h, EntrySlots(entries), i, jw, s, hc, old(jw.tokens), old(jw.open), old(hc.codes), runs, retried);
      if r.Fail? {
        return;
      }
      i := i + 1;
    }
    r := Pass;
  }

  // Each property under its name, typed by its declared type.
  method WriteProps(h: Heap, props: seq<Prop>, jw: JsonWriter, s: Settings, hc: HashCodeList)
    returns (r: Outcome<Failure>, ghost runs: seq<seq<Token>>, ghost retried: bool)
    requires WellFormed(h) && TotalPreorder(s.leq) && forall j :: 0 <= j < |props| ==> Valid(h, props[j].value)
    modifies jw, hc
    decreases Budget(s.maxDepth, jw.Depth()), 5
    ensures Appends(old(jw.tokens), jw.tokens, s.ignore) && Drift(jw.open, jw.tokens) == Drift(old(jw.open), old(jw.tokens))
    ensures old(hc.codes) <= hc.codes && old(jw.open) <= jw.open
    ensures r.Pass? ==> (|runs| == |props| && jw.tokens == old(jw.tokens) + Flatten(runs) &&
      SlotRuns(h, PropSlots(props), old(jw.Depth()), s, retried, runs))
  {
    runs, retried := [], false;
    var i := 0;
    while i < |props|
      invariant 0 <= i <= |props| && |runs| == i
      invariant Appends(old(jw.tokens), jw.tokens, s.ignore) && Drift(jw.open, jw.tokens) == Drift(old(jw.open), old(jw.tokens))
      invariant old(hc.codes) <= hc.codes && old(jw.open) <= jw.open
      invariant jw.tokens == old(jw.tokens) + Flatten(runs)
      invariant SlotRuns(h, PropSlots(props), old(jw.Depth()), s, retried, runs)
    {
      assert PropSlots(props)[i] == Slot(props[i].value, Some(props[i].name), IsContainerType(props[i].declared));
      r, runs, retried := SlotStep(h, PropSlots(props), i, jw, s, hc, old(jw.tokens), old(jw.open), old(hc.codes), runs, retried);
      if r.Fail? {
        return;
      }
      i := i + 1;
    }
    r := Pass;
  }

  lemma PrefixTrans<T>(a: seq<T>, b: seq<T>, c: seq<T>)
    requires a <= b && b <= c
    ensures a <= c
  {
    assert c[..|a|] == c[..|b|][..|a|];
  }

  // SerializeEnumerable: the elements in input order, or, with text ordering,
  // in ascending order of the text each one serializes to on its own.
  method SerializeEnumerable(h: Heap, items: seq<Value>, jw: JsonWriter, s: Settings, hc: HashCodeList)
    returns (r: Outcome<Failure>, ghost run: seq<Token>, ghost retried: bool)
    requires WellFormed(h) && TotalPreorder(s.leq) && forall j :: 0 <= j < |items| ==> Valid(h, items[j])
    modifies jw, hc
    decreases Budget(s.maxDepth, jw.Depth()), 6
    ensures Appends(old(jw.tokens), jw.tokens, s.ignore) && Drift(jw.open, jw.tokens) == Drift(old(jw.open), old(jw.tokens))
    ensures old(hc.codes) <= hc.codes && old(jw.open) <= jw.open
    ensures r.Pass? ==> jw.tokens == old(jw.tokens) + run && EnumRun(h, items, old(jw.Depth()), s, retried, run)
  {
    ghost var runs;
    if s.textOrder {
      ghost var textsRetried;
      var keys;
      keys, textsRetried := TextKeys(h, items, jw.Depth(), s);
      if keys.Failure? {
        return Fail(keys.error), [], false;
      }
      var ordered := SortByKey(keys.value, s.leq);
      SortByKeyElements(keys.value, s.leq);
      var values := Values(ordered);
      forall j | 0 <= j < |values| ensures Valid(h, values[j]) {
        assert ordered[j] in multiset(keys.value);
      }
      ghost var itemsRetried;
      r, runs, itemsRetried := WriteItems(h, values, jw, s, hc);
      run := Flatten(runs);
      retried := textsRetried || itemsRetried;
      if r.Pass? {
        if retried && !textsRetried {
          TextKeyedRetries(h, items, old(jw.Depth()), s, keys.value);
        }
        if retried && !itemsRetried {
          ItemsRunRetries(h, values, old(jw.Depth()), s, run);
        }
        assert TextKeyed(h, items, old(jw.Depth()), s, retried, keys.value);
        assert ItemsRun(h, Values(SortByKey(keys.value, s.leq)), old(jw.Depth()), s, retried, run);
      }
    } else {
      r, runs, retried := WriteItems(h, items, jw, s, hc);
      run := Flatten(runs);
    }
  }

  // One turn of a loop over slots: the protected Serialize on slot i's
  // value, name and container typing. The loop began at tokens t0 with open
  // containers o0 and hash list c0, and `runs` are the runs of the slots
  // before i; on success `next` adds this slot's run.
  method SlotStep(h: Heap, slots: seq<Slot>, i: nat, jw: JsonWriter, s: Settings, hc: HashCodeList,
                  ghost t0: seq<Token>, ghost o0: seq<Container>, ghost c0: seq<nat>,
                  ghost runs: seq<seq<Token>>, ghost retried: bool)
    returns (r: Outcome<Failure>, ghost next: seq<seq<Token>>, ghost nextRetried: bool)
    requires WellFormed(h) && TotalPreorder(s.leq) && i == |runs| < |slots| && Valid(h, slots[i].v)
    requires Appends(t0, jw.tokens, s.ignore) && Drift(jw.open, jw.tokens) == Drift(o0, t0)
    requires c0 <= hc.codes && o0 <= jw.open && jw.tokens == t0 + Flatten(runs)
    requires SlotRuns(h, slots, |o0|, s, retried, runs)
    modifies jw, hc
    decreases Budget(s.maxDepth, |o0|), 4
    ensures Appends(t0, jw.tokens, s.ignore) && Drift(jw.open, jw.tokens) == Drift(o0, t0)
    ensures c0 <= hc.codes && o0 <= jw.open
    ensures r.Pass? ==> (|next| == i + 1 && jw.tokens == t0 + Flatten(next) &&
      SlotRuns(h, slots, |o0|, s, nextRetried, next))
  {
    ghost var t1 := jw.tokens;
    ghost var c1 := hc.codes;
    ghost var o1 := jw.open;
    LoopDepth(jw, t0, o0, runs);
    ghost var run, slotRetried;
    r, run, slotRetried := SerializeValue(h, slots[i].v, slots[i].name, jw, s, hc, slots[i].isContainerType);
    AppendsTrans(t0, t1, jw.tokens, s.ignore);
    PrefixTrans(c0, c1, hc.codes);
    PrefixTrans(o0, o1, jw.open);
    next, nextRetried := runs, retried;
    if r.Pass? {
      SlotStepFacts(h, slots, |o0|, s, t0, t1, jw.tokens, retried, runs, slotRetried, run);
      next, nextRetried := runs + [run], retried || slotRetried;
    }
  }

  // The loop's runs grow by the run of slot |runs|.
  lemma SlotStepFacts(h: Heap, slots: seq<Slot>, d: int, s: Settings, t0: seq<Token>, t1: seq<Token>, t2: seq<Token>,
                      retried: bool, runs: seq<seq<Token>>, slotRetried: bool, run: seq<Token>)
    requires SlotRuns(h, slots, d, s, retried, runs) && |runs| < |slots| && NetDepth(Flatten(runs)) >= 0
    requires ValueRun(h, slots[|runs|].v, slots[|runs|].name, d + NetDepth(Flatten(runs)), s,
                      slots[|runs|].isContainerType, slotRetried, run)
    requires t1 == t0 + Flatten(runs) && t2 == t1 + run
    ensures |runs + [run]| == |runs| + 1 && t2 == t0 + Flatten(runs + [run])
    ensures SlotRuns(h, slots, d, s, retried || slotRetried, runs + [run])
  {
    SlotRunsJoin(h, slots, d, s, retried, runs, slotRetried, run);
    RunsSnoc(t0, t1, t2, runs, run);
  }

  // The elements, each under no name.
  method WriteItems(h: Heap, items: seq<Value>, jw: JsonWriter, s: Settings, hc: HashCodeList)
    returns (r: Outcome<Failure>, ghost runs: seq<seq<Token>>, ghost retried: bool)
    requires WellFormed(h) && TotalPreorder(s.leq) && forall j :: 0 <= j < |items| ==> Valid(h, items[j])
    modifies jw, hc
    decreases Budget(s.maxDepth, jw.Depth()), 5
    ensures Appends(old(jw.tokens), jw.tokens, s.ignore) && Drift(jw.open, jw.tokens) == Drift(old(jw.open), old(jw.tokens))
    ensures old(hc.codes) <= hc.codes && old(jw.open) <= jw.open
    ensures r.Pass? ==> (|runs| == |items| && jw.tokens == old(jw.tokens) + Flatten(runs) &&
      SlotRuns(h, ItemSlots(items), old(jw.Depth()), s, retried, runs))
  {
    runs, retried := [], false;
    var i := 0;
    while i < |items|
      invariant 0 <= i <= |items| && |runs| == i
      invariant Appends(old(jw.tokens), jw.tokens, s.ignore) && Drift(jw.open, jw.tokens) == Drift(old(jw.open), old(jw.tokens))
      invariant old(hc.codes) <= hc.codes && old(jw.open) <= jw.open
      invariant jw.tokens == old(jw.tokens) + Flatten(runs)
      invariant SlotRuns(h, ItemSlots(items), old(jw.Depth()), s, retried, runs)
    {
      assert ItemSlots(items)[i] == Slot(items[i], None, false);
      r, runs, retried := SlotStep(h, ItemSlots(items), i, jw, s, hc, old(jw.tokens), old(jw.open), old(hc.codes), runs, retried);
      if r.Fail? {
        return;
      }
      i := i + 1;
    }
    r := Pass;
  }

  // The text of each element, serialized alone on a fresh writer with a
  // fresh hash list and the remaining depth; two equal texts make
  // Dictionary.Add throw. Nothing is written to the caller's writer.
  method TextKeys(h: Heap, items: seq<Value>, depth: int, s: Settings)
    returns (r: Result<seq<(string, Value)>, Failure>, ghost retried: bool)
    requires WellFormed(h) && TotalPreorder(s.leq) && forall j :: 0 <= j < |items| ==> Valid(h, items[j])
    decreases Budget(s.maxDepth, depth), 5
    ensures r.Success? ==> |r.value| == |items| && forall i :: 0 <= i < |items| ==> r.value[i].1 == items[i]
    ensures r.Success? ==> forall i, j :: 0 <= i < j < |items| ==> r.value[i].0 != r.value[j].0
    ensures r.Success? ==> TextKeyed(h, items, depth, s, retried, r.value)
  {
    var pairs: seq<(string, Value)> := [];
    var seen: set<string> := {};
    var i := 0;
    retried := false;
    while i < |items|
      invariant 0 <= i <= |items| && |pairs| == i
      invariant forall k :: 0 <= k < i ==> pairs[k].1 == items[k]
      invariant forall k :: 0 <= k < i ==> pairs[k].0 in seen
      invariant forall k, l :: 0 <= k < l < i ==> pairs[k].0 != pairs[l].0
      invariant forall k :: 0 <= k < i ==> ElementTextOf(h, items[k], depth, s, retried, pairs[k].0)
    {
      var res;
      ghost var textRetried;
      res, textRetried := ElementText(h, items[i], depth, s);
      if res.Failure? {
        return Failure(res.error), false;
      }
      var text := res.value;
      if text in seen {
        return Failure(DuplicateText(text)), false;
      }
      if textRetried && !retried {
        forall k | 0 <= k < i ensures ElementTextOf(h, items[k], depth, s, true, pairs[k].0) {
          ElementTextOfRetries(h, items[k], depth, s, pairs[k].0);
        }
      } else if retried && !textRetried {
        ElementTextOfRetries(h, items[i], depth, s, text);
      }
      retried := retried || textRetried;
      pairs := pairs + [(text, items[i])];
      seen := seen + {text};
      i := i + 1;
    }
    return Success(pairs), retried;
  }

  // One element serialized alone on a fresh writer with a fresh hash list and
  // the depth that remains, then rendered to text.
  method ElementText(h: Heap, item: Value, depth: int, s: Settings)
    returns (r: Result<string, Failure>, ghost retried: bool)
    requires WellFormed(h) && TotalPreorder(s.leq) && Valid(h, item)
    decreases Budget(s.maxDepth, depth), 4
    ensures (s.maxDepth - depth >= 0 && ScalarCase(h, item, None, false) && !Overflows(h, item)) ==>
      r == Success(s.render([ScalarToken(h, item)]))
    ensures r.Success? ==> ElementTextOf(h, item, depth, s, retried, r.value)
  {
    var jw := new JsonWriter();
    var hc := new HashCodeList();
    var res;
    ghost var run;
    res, run, retried := SerializeValue(h, item, None, jw, s.(maxDepth := s.maxDepth - depth), hc, false);
    if res.Fail? {
      return Failure(res.error), false;
    }
    assert jw.tokens[..0] == [];
    return Success(s.render(jw.tokens)), retried;
  }

  // One value serialized on a fresh writer with a fresh hash list, the
  // tokens it leaves in the writer, and whether an array was retried.
  method SerializeFresh(h: Heap, obj: Value, s: Settings)
    returns (r: Outcome<Failure>, tokens: seq<Token>, ghost retried: bool)
    requires WellFormed(h) && Valid(h, obj) && TotalPreorder(s.leq)
    ensures s.maxDepth < 0 ==> r.Pass? && tokens == []
    ensures r.Pass? ==> forall i :: 0 <= i < |tokens| ==> !(tokens[i].PropertyName? && tokens[i].name in s.ignore)
    ensures s.maxDepth >= 0 && ScalarCase(h, obj, None, false) ==>
      if Overflows(h, obj) then r == Fail(NumberOverflow) else r.Pass? && tokens == [ScalarToken(h, obj)]
    ensures s.maxDepth >= 0 && GetJsonValueKind(h, obj) == Undefined && !h[obj.id].typ.shape.EnumType? ==>
      r.Pass? && tokens == []
    ensures s.maxDepth >= 0 && IsContainerKind(GetJsonValueKind(h, obj)) && r.Pass? ==> (
      |tokens| >= 2 &&
      tokens[0] == (if GetJsonValueKind(h, obj) == Array then StartArray else StartObject) &&
      tokens[|tokens| - 1] == (if GetJsonValueKind(h, obj) == Array then EndArray else EndObject))
    ensures (s.maxDepth >= 0 && GetJsonValueKind(h, obj) == Array &&
      !CastsToObjectEnumerable(h[obj.id].typ) && !HasGenericArgument(h[obj.id].typ)) ==> r.Fail?
    ensures s.maxDepth >= 0 && r.Pass? ==> NamedRun(h, obj, None, 0, s, retried, tokens)
    ensures r.Pass? && !retried ==> NetDepth(tokens) == 0 && Nesting(tokens) <= Levels(0, s.maxDepth)
  {
    var jw := new JsonWriter();
    var hc := new HashCodeList();
    ghost var run;
    r, run, retried := SerializeValue(h, obj, None, jw, s, hc, false);
    assert jw.tokens[..0] == [];
    tokens := jw.tokens;
    if r.Pass? {
      RootRun(h, obj, s, retried, tokens);
      if s.maxDepth >= 0 && IsContainerKind(GetJsonValueKind(h, obj)) {
        UnnamedContainer(tokens, GetJsonValueKind(h, obj));
      }
    }
  }

  lemma UnnamedContainer(run: seq<Token>, k: JsonValueKind)
    requires ContainerWritten(run, None, k)
    ensures Bracketed(run, k)
  {
    assert run[|NameTokens(None)|..] == run;
  }

  // A root run that is not a container is the root's NamedRun whenever the
  // bound lets the root through, and without a retry any root run is
  // balanced and bounded.
  lemma RootRun(h: Heap, obj: Value, s: Settings, retried: bool, tokens: seq<Token>)
    requires ValueRun(h, obj, None, 0, s, false, retried, tokens)
    ensures s.maxDepth >= 0 && !IsContainerKind(GetJsonValueKind(h, obj)) ==>
      NamedRun(h, obj, None, 0, s, retried, tokens)
    ensures !retried ==> NetDepth(tokens) == 0 && Nesting(tokens) <= Levels(0, s.maxDepth)
  {
    if !retried {
      ValueRunBounded(h, obj, None, 0, s, false, tokens);
    }
  }

  // propertiesToIgnore, with a null array taken as empty.
  function IgnoreSet(propertiesToIgnore: Option<seq<string>>): set<string>
  {
    if propertiesToIgnore.Some? then set p | p in propertiesToIgnore.value else {}
  }

  // The public Serialize: a fresh writer and hash list, a null array of names
  // to ignore taken as empty. The tokens stand for the text that the
  // Utf8JsonWriter's buffer holds.
  method Serialize(h: Heap, obj: Value, maxDepth: int, propertiesToIgnore: Option<seq<string>>,
                   textOrder: bool, render: Render, leq: Comparer)
    returns (r: Result<seq<Token>, Failure>, ghost retried: bool)
    requires WellFormed(h) && Valid(h, obj) && TotalPreorder(leq)
    ensures maxDepth < 0 ==> r == Success([])
    ensures r.Success? ==> forall i :: 0 <= i < |r.value| ==>
      !(r.value[i].PropertyName? && propertiesToIgnore.Some? && r.value[i].name in propertiesToIgnore.value)
    ensures maxDepth >= 0 && ScalarCase(h, obj, None, false) ==>
      if Overflows(h, obj) then r == Failure(NumberOverflow) else r == Success([ScalarToken(h, obj)])
    ensures maxDepth >= 0 && GetJsonValueKind(h, obj) == Undefined && !h[obj.id].typ.shape.EnumType? ==> r == Success([])
    ensures maxDepth >= 0 && IsContainerKind(GetJsonValueKind(h, obj)) && r.Success? ==> (
      |r.value| >= 2 &&
      r.value[0] == (if GetJsonValueKind(h, obj) == Array then StartArray else StartObject) &&
      r.value[|r.value| - 1] == (if GetJsonValueKind(h, obj) == Array then EndArray else EndObject))
    ensures (maxDepth >= 0 && GetJsonValueKind(h, obj) == Array &&
      !CastsToObjectEnumerable(h[obj.id].typ) && !HasGenericArgument(h[obj.id].typ)) ==> r.Failure?
    ensures maxDepth >= 0 && r.Success? ==>
      NamedRun(h, obj, None, 0, Settings(maxDepth, IgnoreSet(propertiesToIgnore), textOrder, render, leq), retried, r.value)
    ensures r.Success? && !retried ==> NetDepth(r.value) == 0 && Nesting(r.value) <= Levels(0, maxDepth)
  {
    var res, tokens;
    res, tokens, retried := SerializeFresh(h, obj, Settings(maxDepth, IgnoreSet(propertiesToIgnore), textOrder, render, leq));
    if res.Fail? {
      return Failure(res.error), false;
    }
    return Success(tokens), retried;
  }
}
