// The depth-keyed serializer of EDennis.JsonUtils (SafeJsonSerializer.cs).
//
// It walks an object graph and writes it to a Json.NET writer. A dictionary
// maps each registered object to the depth at which it was first met; an
// object with navigation properties that is met again at a different depth is
// left out, and so is a list holding such an object. Recursion stops below
// maxDepth, and property names in the ignore set are never written.
module DepthKeyedSerializer {
  import opened Wrappers
  import opened ObjectGraph
  import opened JsonTokens

  // The exceptions the serializer lets escape.
  datatype Failure =
    | BadFormat(typeName: string, propName: string, format: string)      // FormatException
    | UndefinedValueProperty(typeName: string, propertyName: Option<string>) // ArgumentOutOfRangeException
    | PropertyNameRejected(propertyName: Option<string>)  // ApplicationException around a writer refusal
    | ValueRejected(propertyName: Option<string>)         // ApplicationException around WriteValue's refusal
    | WriterRejected(token: Token)                        // JsonWriterException, not wrapped
    | NullReference                                       // NullReferenceException
    | FromObjectFailed                                    // JToken.FromObject: JsonSerializationException

  // Whether Json.NET's own serialization (JToken.FromObject) throws for a
  // value: among other causes, its default ReferenceLoopHandling.Error throws
  // on a reference loop, which is exactly the graph this library exists for.
  // Json.NET's serializer is not part of this model, so callers supply it.
  type FromObjectFails = Value -> bool

  function OrEmpty(s: Option<string>): string
  {
    if s.Some? then s.value else ""
  }

  // The exception messages the source spells out.
  function Message(f: Failure): string
  {
    match f
    case BadFormat(t, p, fmt) =>
      "The format specified for " + t + "." + p + " (" + fmt + ") is invalid.  Please check the syntax."
    case UndefinedValueProperty(t, p) =>
      "JsonSimpleValue Attribute specified on " + t + " attempts to target an undefined property: " + OrEmpty(p) + "."
    case _ => ""
  }

  // A property together with what the serializer derives from its declared
  // type (the source's Property class). The type is the declared type with
  // Nullable<T> unwrapped.
  datatype Property = Property(
    name: string,
    typ: TypeDesc,
    isNullable: bool,
    value: Value,
    formatted: Option<string>,
    isCollection: bool,
    isArray: bool,
    isObject: bool)

  function Unwrap(t: TypeDesc): TypeDesc
  {
    t.(nullable := false)
  }

  // FullName starts with "System.Collections.Generic.List".
  predicate IsCollectionType(t: TypeDesc)
  {
    t.shape.GenericListType?
  }

  // FullName ends with "[]".
  predicate IsArrayType(t: TypeDesc)
  {
    t.shape.ArrayType?
  }

  // IsClass and FullName does not start with "System.". An array of a user
  // type is such a class too.
  predicate IsObjectType(t: TypeDesc)
  {
    IsClass(t) && !t.inSystem
  }

  function Describe(p: Prop, formatted: Option<string>): Property
  {
    var t := Unwrap(p.declared);
    Property(p.name, t, p.declared.nullable, p.value, formatted,
             IsCollectionType(t), IsArrayType(t), IsObjectType(t))
  }

  // The Properties constructor: one descriptor per property, in order. The
  // first property whose format does not render raises a FormatException
  // naming the type, the property and the format.
  method Properties(n: Node, format: Formatter) returns (r: Result<seq<Property>, Failure>)
    ensures r.Success? <==> FormatsOk(n, format)
    ensures r.Success? ==> (|r.value| == |n.props| &&
      forall i :: 0 <= i < |n.props| ==> r.value[i] == Describe(n.props[i], Formatted(n.props[i], format)))
    ensures r.Success? ==> r.value == Described(n, format)
    ensures r.Failure? ==> exists k :: (0 <= k < |n.props| && !FormatOk(n.props[k], format) &&
      (forall j :: 0 <= j < k ==> FormatOk(n.props[j], format)) &&
      r.error == BadFormat(n.typ.name, n.props[k].name, n.props[k].format.value))
  {
    var acc: seq<Property> := [];
    var i := 0;
    while i < |n.props|
      invariant 0 <= i <= |n.props| && |acc| == i
      invariant forall j :: 0 <= j < i ==> FormatOk(n.props[j], format)
      invariant forall j :: 0 <= j < i ==> acc[j] == Describe(n.props[j], Formatted(n.props[j], format))
    {
      var p := n.props[i];
      var formatted: Option<string> := None;
      if p.format.Some? {
        formatted := format(p.format.value, p.value);
        if formatted.None? {
          return Failure(BadFormat(n.typ.name, p.name, p.format.value));
        }
      }
      acc := acc + [Describe(p, formatted)];
      i := i + 1;
    }
    DescribeAllAt(n.props, format);
    return Success(acc);
  }

  // Some property is a List<> or a user object; an array counts only when
  // it is a user object too (its element type is not a System type).
  function HasNavigationProperties(ps: seq<Property>): (b: bool)
    ensures b <==> exists i :: 0 <= i < |ps| && (ps[i].isCollection || ps[i].isObject)
  {
    if ps == [] then false
    else if ps[0].isCollection || ps[0].isObject then true
    else
      var rest := HasNavigationProperties(ps[1..]);
      assert forall i :: 1 <= i < |ps| ==> ps[i] == ps[1..][i - 1];
      rest
  }

  // The first property with the given name (Where(...).FirstOrDefault()).
  function FindProperty(ps: seq<Property>, name: string): (r: Option<nat>)
    ensures r.Some? ==> (r.value < |ps| && ps[r.value].name == name &&
      forall j :: 0 <= j < r.value ==> ps[j].name != name)
    ensures r.None? ==> forall j :: 0 <= j < |ps| ==> ps[j].name != name
  {
    if ps == [] then None
    else if ps[0].name == name then Some(0)
    else
      match FindProperty(ps[1..], name)
      case None =>
        assert forall j :: 1 <= j < |ps| ==> ps[j] == ps[1..][j - 1];
        None
      case Some(k) =>
        assert forall j :: 1 <= j < k + 1 ==> ps[j] == ps[1..][j - 1];
        Some(k + 1)
  }

  // IsSimple: primitive, enum, string or decimal, looking through Nullable<T>.
  predicate IsSimple(t: TypeDesc)
  {
    var u := Unwrap(t);
    IsPrimitive(u) || u.shape.EnumType? || u.shape.StringType? || u.shape.DecimalType?
  }

  // The test before the property list is built: written with ToString().
  // "Float" is not the name of any .NET type (single precision is "Single");
  // a class of the program that happens to be called so matches.
  predicate PrimitiveLike(t: TypeDesc)
  {
    IsPrimitive(t) || t.name == "String" || t.name == "Decimal" || t.name == "Float" || t.name == "DateTime"
  }

  // Every simple runtime type except IntPtr and UIntPtr is accepted by
  // JsonWriter.WriteValue.
  lemma SimpleIsWritable(t: TypeDesc)
    requires RuntimeType(t) && IsSimple(t) && t.shape != Primitive(IntPtr) && t.shape != Primitive(UIntPtr)
    ensures JsonNetWritable(t)
  {
  }

  // The descriptors the Properties constructor builds for a node whose
  // formats all render.
  function Described(n: Node, format: Formatter): seq<Property>
  {
    DescribeAll(n.props, format)
  }

  function DescribeAll(ps: seq<Prop>, format: Formatter): seq<Property>
  {
    if ps == [] then [] else DescribeAll(ps[..|ps| - 1], format) + [Describe(ps[|ps| - 1], Formatted(ps[|ps| - 1], format))]
  }

  lemma {:induction false} DescribeAllAt(ps: seq<Prop>, format: Formatter)
    ensures |DescribeAll(ps, format)| == |ps|
    ensures forall i :: 0 <= i < |ps| ==> DescribeAll(ps, format)[i] == Describe(ps[i], Formatted(ps[i], format))
  {
    if ps != [] {
      DescribeAllAt(ps[..|ps| - 1], format);
    }
  }

  lemma DescribedValid(h: Heap, n: Node, format: Formatter)
    requires NodeClosed(h, n)
    ensures forall i :: 0 <= i < |Described(n, format)| ==> Valid(h, Described(n, format)[i].value)
  {
    DescribeAllAt(n.props, format);
    forall i | 0 <= i < |n.props| ensures Valid(h, n.props[i].value) {
      PropValueValid(h, n, i);
    }
  }

  // An object with a navigation property, where the declared type alone
  // decides (Nullable<T> never wraps a class).
  ghost predicate Navigable(n: Node)
  {
    exists i :: 0 <= i < |n.props| &&
      (IsCollectionType(Unwrap(n.props[i].declared)) || IsObjectType(Unwrap(n.props[i].declared)))
  }

  lemma NavigableDescribed(n: Node, format: Formatter)
    ensures HasNavigationProperties(Described(n, format)) == Navigable(n)
  {
    DescribeAllAt(n.props, format);
    var ps := Described(n, format);
    forall i | 0 <= i < |ps|
      ensures (ps[i].isCollection || ps[i].isObject) ==
        (IsCollectionType(Unwrap(n.props[i].declared)) || IsObjectType(Unwrap(n.props[i].declared)))
    {
    }
  }

  // The output grammar: the token runs a call appends when it returns
  // normally, by what it is asked to write and the depth d it is called at.
  // A run that the registration test can suppress (an object with navigation
  // properties, a list) is either empty or written in full; every other run
  // is determined by the graph and the settings. Each layer is its own
  // predicate so that unfolding one does not unfold the next.

  // SerializeObject(v, name) at depth d: nothing when v is null, too deep or
  // ignored.
  ghost predicate ObjectRun(h: Heap, v: Value, name: Option<string>, d: int, s: WalkSettings, run: seq<Token>)
    decreases s.maxDepth + 1 - d, 5
  {
    if v.Null? || d > s.maxDepth || (name.Some? && name.value in s.ignore) then run == []
    else v.id in h && NodeRun(h, h[v.id], name, d, s, run)
  }

  // An object past those tests: a primitive-like value by its ToString()
  // text, a tagged type by its tagged property, anything else as an object.
  ghost predicate NodeRun(h: Heap, n: Node, name: Option<string>, d: int, s: WalkSettings, run: seq<Token>)
    decreases s.maxDepth + 1 - d, 4
  {
    if PrimitiveLike(n.typ) then run == [StringValue(n.scalar.text)]
    else
      FormatsOk(n, s.format) &&
      if n.typ.simpleValue.Some? then TaggedRun(Described(n, s.format), n.typ.simpleValue.value, name, run)
      else TrackedRun(h, Described(n, s.format), name, d, s, run)
  }

  // [JsonSimpleValue(tag)]: the name, then the value of the first property
  // called tag.
  ghost predicate TaggedRun(ps: seq<Property>, tag: string, name: Option<string>, run: seq<Token>)
  {
    var k := FindProperty(ps, tag);
    k.Some? && run == [NameToken(name), ValueOf(ps[k.value].value)]
  }

  // The registration test: an object with navigation properties may be
  // suppressed; any other object is written.
  ghost predicate TrackedRun(h: Heap, ps: seq<Property>, name: Option<string>, d: int, s: WalkSettings, run: seq<Token>)
    decreases s.maxDepth + 1 - d, 3
  {
    (HasNavigationProperties(ps) && run == []) || ObjectBody(h, ps, name, d, s, run)
  }

  // The name, {, one run per property in order, }.
  ghost predicate ObjectBody(h: Heap, ps: seq<Property>, name: Option<string>, d: int, s: WalkSettings, run: seq<Token>)
    decreases s.maxDepth + 1 - d, 2
  {
    d <= s.maxDepth &&
    exists runs: seq<seq<Token>> :: |runs| == |ps| &&
      run == NameTokens(name) + [StartObject] + Flatten(runs) + [EndObject] &&
      PropertyRuns(h, ps, d + 1, s, runs)
  }

  // One property run per property so far, in order.
  ghost predicate PropertyRuns(h: Heap, ps: seq<Property>, d: int, s: WalkSettings, runs: seq<seq<Token>>)
    decreases s.maxDepth + 1 - d, 8
  {
    |runs| <= |ps| && forall i :: 0 <= i < |runs| ==> PropertyRun(h, ps[i], d, s, runs[i])
  }

  // One property inside an object at depth d.
  ghost predicate PropertyRun(h: Heap, p: Property, d: int, s: WalkSettings, run: seq<Token>)
    decreases s.maxDepth + 1 - d, 7
  {
    if (p.isCollection || p.isArray) && p.value.Ref? then
      p.value.id in h &&
      if ImplementsIList(h[p.value.id].typ) then ListRun(h, h[p.value.id].items, Some(p.name), d, s, run)
      else run == []
    else if p.isObject && p.value.Ref? then ObjectRun(h, p.value, Some(p.name), d, s, run)
    else if p.formatted.Some? && p.name !in s.ignore then
      run == [PropertyName(p.name), StringValue(p.formatted.value)]
    else if !p.isCollection && !p.isArray && !p.isObject && p.name !in s.ignore then
      run == [PropertyName(p.name), ValueOf(p.value)]
    else run == []
  }

  // SerializeList(items, name) at depth d.
  ghost predicate ListRun(h: Heap, items: seq<Value>, name: Option<string>, d: int, s: WalkSettings, run: seq<Token>)
    decreases s.maxDepth + 1 - d, 6
  {
    if items == [] || d > s.maxDepth || (name.Some? && name.value in s.ignore) then run == []
    else run == [] || ArrayBody(h, items, name, d, s, run)
  }

  // The name, [, one run per element in order, ].
  ghost predicate ArrayBody(h: Heap, items: seq<Value>, name: Option<string>, d: int, s: WalkSettings, run: seq<Token>)
    decreases s.maxDepth + 1 - d, 2
  {
    d <= s.maxDepth &&
    exists runs: seq<seq<Token>> :: |runs| == |items| &&
      run == NameTokens(name) + [StartArray] + Flatten(runs) + [EndArray] &&
      ElementRuns(h, items, d + 1, s, runs)
  }

  // One element run per element so far, in order.
  ghost predicate ElementRuns(h: Heap, items: seq<Value>, d: int, s: WalkSettings, runs: seq<seq<Token>>)
    decreases s.maxDepth + 1 - d, 8
  {
    |runs| <= |items| && forall j :: 0 <= j < |runs| ==> ElementRun(h, items[j], d, s, runs[j])
  }

  // One element inside an array at depth d: a simple value or an object.
  ghost predicate ElementRun(h: Heap, v: Value, d: int, s: WalkSettings, run: seq<Token>)
    decreases s.maxDepth + 1 - d, 7
  {
    v.Ref? && v.id in h &&
    if IsSimple(h[v.id].typ) then run == [ValueOf(v)] else ObjectRun(h, v, None, d, s, run)
  }

  lemma ObjectBodyIntro(h: Heap, ps: seq<Property>, name: Option<string>, d: int, s: WalkSettings, runs: seq<seq<Token>>)
    requires d <= s.maxDepth && |runs| == |ps|
    requires PropertyRuns(h, ps, d + 1, s, runs)
    ensures ObjectBody(h, ps, name, d, s, NameTokens(name) + [StartObject] + Flatten(runs) + [EndObject])
  {
  }

  lemma ArrayBodyIntro(h: Heap, items: seq<Value>, name: Option<string>, d: int, s: WalkSettings, runs: seq<seq<Token>>)
    requires d <= s.maxDepth && |runs| == |items|
    requires ElementRuns(h, items, d + 1, s, runs)
    ensures ArrayBody(h, items, name, d, s, NameTokens(name) + [StartArray] + Flatten(runs) + [EndArray])
  {
  }

  lemma PropertyRunsSnoc(h: Heap, ps: seq<Property>, d: int, s: WalkSettings, runs: seq<seq<Token>>, run: seq<Token>)
    requires PropertyRuns(h, ps, d, s, runs) && |runs| < |ps| && PropertyRun(h, ps[|runs|], d, s, run)
    ensures PropertyRuns(h, ps, d, s, runs + [run])
  {
  }

  lemma ElementRunsSnoc(h: Heap, items: seq<Value>, d: int, s: WalkSettings, runs: seq<seq<Token>>, run: seq<Token>)
    requires ElementRuns(h, items, d, s, runs) && |runs| < |items| && ElementRun(h, items[|runs|], d, s, run)
    ensures ElementRuns(h, items, d, s, runs + [run])
  {
  }

  // Every run of the grammar is balanced and opens at most Levels(d) levels
  // of containers: the output never nests deeper than maxDepth + 1 - d.
  lemma {:induction false} ObjectRunBounded(h: Heap, v: Value, name: Option<string>, d: int, s: WalkSettings, run: seq<Token>)
    requires ObjectRun(h, v, name, d, s, run)
    ensures NetDepth(run) == 0 && Nesting(run) <= Levels(d, s.maxDepth)
    decreases s.maxDepth + 1 - d, 5
  {
    if !(v.Null? || d > s.maxDepth || (name.Some? && name.value in s.ignore)) {
      var n := h[v.id];
      if PrimitiveLike(n.typ) || n.typ.simpleValue.Some? {
        FlatRun(run);
      } else if run != [] {
        assert TrackedRun(h, Described(n, s.format), name, d, s, run);
        ObjectBodyBounded(h, Described(n, s.format), name, d, s, run);
      }
    }
  }

  lemma {:induction false} ObjectBodyBounded(h: Heap, ps: seq<Property>, name: Option<string>, d: int, s: WalkSettings, run: seq<Token>)
    requires ObjectBody(h, ps, name, d, s, run)
    ensures NetDepth(run) == 0 && Nesting(run) <= Levels(d, s.maxDepth)
    decreases s.maxDepth + 1 - d, 2
  {
    var runs: seq<seq<Token>> :| |runs| == |ps| &&
      run == NameTokens(name) + [StartObject] + Flatten(runs) + [EndObject] &&
      PropertyRuns(h, ps, d + 1, s, runs);
    var k := Levels(d + 1, s.maxDepth);
    forall i | 0 <= i < |runs| ensures NetDepth(runs[i]) == 0 && Nesting(runs[i]) <= k {
      PropertyRunBounded(h, ps[i], d + 1, s, runs[i]);
    }
    FlattenBounded(runs, k);
    BracketedBounded(name, StartObject, Flatten(runs), EndObject, k);
  }

  lemma {:induction false} PropertyRunBounded(h: Heap, p: Property, d: int, s: WalkSettings, run: seq<Token>)
    requires PropertyRun(h, p, d, s, run)
    ensures NetDepth(run) == 0 && Nesting(run) <= Levels(d, s.maxDepth)
    decreases s.maxDepth + 1 - d, 7
  {
    if (p.isCollection || p.isArray) && p.value.Ref? {
      if ImplementsIList(h[p.value.id].typ) {
        ListRunBounded(h, h[p.value.id].items, Some(p.name), d, s, run);
      }
    } else if p.isObject && p.value.Ref? {
      ObjectRunBounded(h, p.value, Some(p.name), d, s, run);
    } else {
      FlatRun(run);
    }
  }

  lemma {:induction false} ListRunBounded(h: Heap, items: seq<Value>, name: Option<string>, d: int, s: WalkSettings, run: seq<Token>)
    requires ListRun(h, items, name, d, s, run)
    ensures NetDepth(run) == 0 && Nesting(run) <= Levels(d, s.maxDepth)
    decreases s.maxDepth + 1 - d, 6
  {
    if run != [] {
      var runs: seq<seq<Token>> :| |runs| == |items| &&
        run == NameTokens(name) + [StartArray] + Flatten(runs) + [EndArray] &&
        ElementRuns(h, items, d + 1, s, runs);
      var k := Levels(d + 1, s.maxDepth);
      forall j | 0 <= j < |runs| ensures NetDepth(runs[j]) == 0 && Nesting(runs[j]) <= k {
        ElementRunBounded(h, items[j], d + 1, s, runs[j]);
      }
      FlattenBounded(runs, k);
      BracketedBounded(name, StartArray, Flatten(runs), EndArray, k);
    }
  }

  lemma {:induction false} ElementRunBounded(h: Heap, v: Value, d: int, s: WalkSettings, run: seq<Token>)
    requires ElementRun(h, v, d, s, run)
    ensures NetDepth(run) == 0 && Nesting(run) <= Levels(d, s.maxDepth)
    decreases s.maxDepth + 1 - d, 7
  {
    if IsSimple(h[v.id].typ) {
      FlatRun(run);
    } else {
      ObjectRunBounded(h, v, None, d, s, run);
    }
  }

  // One iteration of the property and element loops: the registration map,
  // the token stream and the runs so far each absorb what the call appended.
  lemma PropertyStep(m00: map<nat, int>, m0: map<nat, int>, m1: map<nat, int>, d: int, maxDepth: int,
                     t00: seq<Token>, t0: seq<Token>, t1: seq<Token>, ignore: set<string>,
                     h: Heap, ps: seq<Property>, s: WalkSettings, runs: seq<seq<Token>>, run: seq<Token>, pass: bool)
    requires Extends(m00, m0) && NewKeysWithin(m00, m0, d, maxDepth)
    requires Extends(m0, m1) && NewKeysWithin(m0, m1, d, maxDepth)
    requires Appends(t00, t0, ignore) && Appends(t0, t1, ignore)
    requires t0 == t00 + Flatten(runs) && PropertyRuns(h, ps, d, s, runs) && |runs| < |ps|
    requires pass ==> t1 == t0 + run && PropertyRun(h, ps[|runs|], d, s, run)
    ensures Extends(m00, m1) && NewKeysWithin(m00, m1, d, maxDepth)
    ensures Appends(t00, t1, ignore)
    ensures pass ==> t1 == t00 + Flatten(runs + [run]) && PropertyRuns(h, ps, d, s, runs + [run])
  {
    GrowsTrans(m00, m0, m1, d, maxDepth);
    AppendsTrans(t00, t0, t1, ignore);
    if pass {
      FlattenSnoc(runs, run);
      PropertyRunsSnoc(h, ps, d, s, runs, run);
    }
  }

  lemma ElementStep(m00: map<nat, int>, m0: map<nat, int>, m1: map<nat, int>, d: int, maxDepth: int,
                    t00: seq<Token>, t0: seq<Token>, t1: seq<Token>, ignore: set<string>,
                    h: Heap, items: seq<Value>, s: WalkSettings, runs: seq<seq<Token>>, run: seq<Token>, pass: bool)
    requires Extends(m00, m0) && NewKeysWithin(m00, m0, d, maxDepth)
    requires Extends(m0, m1) && NewKeysWithin(m0, m1, d, maxDepth)
    requires Appends(t00, t0, ignore) && Appends(t0, t1, ignore)
    requires t0 == t00 + Flatten(runs) && ElementRuns(h, items, d, s, runs) && |runs| < |items|
    requires pass ==> t1 == t0 + run && ElementRun(h, items[|runs|], d, s, run)
    ensures Extends(m00, m1) && NewKeysWithin(m00, m1, d, maxDepth)
    ensures Appends(t00, t1, ignore)
    ensures pass ==> t1 == t00 + Flatten(runs + [run]) && ElementRuns(h, items, d, s, runs + [run])
  {
    GrowsTrans(m00, m0, m1, d, maxDepth);
    AppendsTrans(t00, t0, t1, ignore);
    if pass {
      FlattenSnoc(runs, run);
      ElementRunsSnoc(h, items, d, s, runs, run);
    }
  }

  class SafeJsonSerializer {
    // object id (the source's hash code) -> depth at which it was registered
    var hashDictionary: map<nat, int>
    var propertiesToIgnore: set<string>
    var maxDepth: int
    var depth: int
    const jw: JsonWriter
    const format: Formatter

    constructor (jw: JsonWriter, format: Formatter)
      ensures this.jw == jw && this.format == format
      ensures hashDictionary == map[] && propertiesToIgnore == {} && maxDepth == 3 && depth == 1
    {
      this.jw := jw;
      this.format := format;
      hashDictionary := map[];
      propertiesToIgnore := {};
      maxDepth := 3;
      depth := 1;
    }

    ghost predicate RegisteredElsewhere(id: nat)
      reads this
    {
      id in hashDictionary && hashDictionary[id] != depth
    }

    // Serializes the root: a dictionary through Json.NET's own serialization,
    // an enumerable of reference elements as a list (falling back to Json.NET
    // when that throws), anything else as an object.
    method Serialize(h: Heap, obj: Value, maxDepth: int, propertiesToIgnore: Option<seq<string>>,
                     fromObjectFails: FromObjectFails)
      returns (r: Outcome<Failure>)
      requires WellFormed(h) && Valid(h, obj)
      modifies this`maxDepth, this`propertiesToIgnore, this`depth, this`hashDictionary, jw
      ensures this.maxDepth == maxDepth
      ensures propertiesToIgnore.None? ==>
        r == Fail(NullReference) && jw.tokens == old(jw.tokens) && this.propertiesToIgnore == old(this.propertiesToIgnore)
      ensures propertiesToIgnore.Some? ==>
        this.propertiesToIgnore == old(this.propertiesToIgnore) + set p | p in propertiesToIgnore.value
      ensures obj.Null? ==> r == Fail(NullReference) && jw.tokens == old(jw.tokens)
      ensures Extends(old(hashDictionary), hashDictionary)
      ensures Appends(old(jw.tokens), jw.tokens, this.propertiesToIgnore)
      ensures (propertiesToIgnore.Some? && obj.Ref? &&
               (ImplementsIDictionary(h[obj.id].typ) ||
                (ImplementsIEnumerable(h[obj.id].typ) && !CastsToObjectEnumerable(h[obj.id].typ)))) ==>
        (if fromObjectFails(obj) then r == Fail(FromObjectFailed) && jw.tokens == old(jw.tokens)
         else r.Pass? == old(jw.AcceptsValue()) && (r.Pass? ==> jw.tokens == old(jw.tokens) + [RawValue(obj)]))
      ensures (propertiesToIgnore.Some? && obj.Ref? && !ImplementsIDictionary(h[obj.id].typ) &&
               CastsToObjectEnumerable(h[obj.id].typ) && r.Pass?) ==>
        ListRun(h, h[obj.id].items, None, old(depth), WalkSettings(maxDepth, this.propertiesToIgnore, format),
                jw.tokens[|old(jw.tokens)|..]) ||
        (|jw.tokens| > |old(jw.tokens)| && jw.tokens[|jw.tokens| - 1] == RawValue(obj))
      ensures propertiesToIgnore.Some? && obj.Ref? && !ImplementsIEnumerable(h[obj.id].typ) && r.Pass? ==>
        ObjectRun(h, obj, None, old(depth), WalkSettings(maxDepth, this.propertiesToIgnore, format),
                  jw.tokens[|old(jw.tokens)|..])
      ensures (propertiesToIgnore.Some? && obj.Ref? && !ImplementsIDictionary(h[obj.id].typ) &&
               CastsToObjectEnumerable(h[obj.id].typ) && h[obj.id].items != [] && old(depth) <= maxDepth &&
               !old(RegisteredElsewhere(obj.id)) &&
               !(exists j :: 0 <= j < |h[obj.id].items| && h[obj.id].items[j].Ref? && old(RegisteredElsewhere(h[obj.id].items[j].id))) &&
               r.Pass?) ==>
        ArrayBody(h, h[obj.id].items, None, old(depth), WalkSettings(maxDepth, this.propertiesToIgnore, format),
                  jw.tokens[|old(jw.tokens)|..]) ||
        (|jw.tokens| > |old(jw.tokens)| && jw.tokens[|jw.tokens| - 1] == RawValue(obj))
      ensures (propertiesToIgnore.Some? && obj.Ref? && !ImplementsIEnumerable(h[obj.id].typ) &&
               old(depth) <= maxDepth && !PrimitiveLike(h[obj.id].typ) && FormatsOk(h[obj.id], format) &&
               h[obj.id].typ.simpleValue.None? && !(Navigable(h[obj.id]) && old(RegisteredElsewhere(obj.id)))) ==>
        obj.id in hashDictionary &&
        (r.Pass? ==> ObjectBody(h, Described(h[obj.id], format), None, old(depth),
                                WalkSettings(maxDepth, this.propertiesToIgnore, format), jw.tokens[|old(jw.tokens)|..]))
    {
      this.maxDepth := maxDepth;
      if propertiesToIgnore.None? {
        return Fail(NullReference);
      }
      IgnoreNames(propertiesToIgnore.value);
      if obj.Null? {
        return Fail(NullReference);
      }
      r := SerializeRoot(h, obj, fromObjectFails);
    }

    /** Adds every name of the caller's list to the ignored property names. */
    method IgnoreNames(names: seq<string>)
      modifies this`propertiesToIgnore
      ensures propertiesToIgnore == old(propertiesToIgnore) + set p | p in names
    {
      var i := 0;
      while i < |names|
        invariant 0 <= i <= |names|
        invariant propertiesToIgnore == old(propertiesToIgnore) + set p | p in names[..i]
      {
        propertiesToIgnore := propertiesToIgnore + {names[i]};
        assert names[..i + 1] == names[..i] + [names[i]];
        i := i + 1;
      }
      assert names[..i] == names;
    }

    /** The dispatch on the root object's kind, once the settings are in place. */
    method SerializeRoot(h: Heap, obj: Value, fromObjectFails: FromObjectFails) returns (r: Outcome<Failure>)
      requires WellFormed(h) && Valid(h, obj) && obj.Ref?
      modifies this`depth, this`hashDictionary, jw
      ensures Extends(old(hashDictionary), hashDictionary)
      ensures Appends(old(jw.tokens), jw.tokens, propertiesToIgnore)
      ensures (ImplementsIDictionary(h[obj.id].typ) ||
               (ImplementsIEnumerable(h[obj.id].typ) && !CastsToObjectEnumerable(h[obj.id].typ))) ==>
        (if fromObjectFails(obj) then r == Fail(FromObjectFailed) && jw.tokens == old(jw.tokens)
         else r.Pass? == old(jw.AcceptsValue()) && (r.Pass? ==> jw.tokens == old(jw.tokens) + [RawValue(obj)]))
      ensures (!ImplementsIDictionary(h[obj.id].typ) && CastsToObjectEnumerable(h[obj.id].typ) && r.Pass?) ==>
        ListRun(h, h[obj.id].items, None, old(depth), WalkSettings(maxDepth, propertiesToIgnore, format),
                jw.tokens[|old(jw.tokens)|..]) ||
        (|jw.tokens| > |old(jw.tokens)| && jw.tokens[|jw.tokens| - 1] == RawValue(obj))
      ensures !ImplementsIEnumerable(h[obj.id].typ) && r.Pass? ==>
        ObjectRun(h, obj, None, old(depth), WalkSettings(maxDepth, propertiesToIgnore, format),
                  jw.tokens[|old(jw.tokens)|..])
      ensures (!ImplementsIDictionary(h[obj.id].typ) && CastsToObjectEnumerable(h[obj.id].typ) &&
               !old(ListSkipped(h[obj.id].items, obj.id, None)) && r.Pass?) ==>
        ArrayBody(h, h[obj.id].items, None, old(depth), WalkSettings(maxDepth, propertiesToIgnore, format),
                  jw.tokens[|old(jw.tokens)|..]) ||
        (|jw.tokens| > |old(jw.tokens)| && jw.tokens[|jw.tokens| - 1] == RawValue(obj))
      ensures !ImplementsIEnumerable(h[obj.id].typ) && old(PlainObject(h, obj, None)) &&
              !(Navigable(h[obj.id]) && old(RegisteredElsewhere(obj.id))) ==>
        obj.id in hashDictionary &&
        (r.Pass? ==> ObjectBody(h, Described(h[obj.id], format), None, old(depth),
                                WalkSettings(maxDepth, propertiesToIgnore, format), jw.tokens[|old(jw.tokens)|..]))
    {
      var n := h[obj.id];
      if ImplementsIDictionary(n.typ) {
        r := WriteRaw(obj, fromObjectFails);
      } else if ImplementsIEnumerable(n.typ) {
        if CastsToObjectEnumerable(n.typ) {
          ghost var t0 := jw.tokens;
          assert forall j :: 0 <= j < |n.items| ==> Valid(h, n.items[j]) by {
            forall j | 0 <= j < |n.items| ensures Valid(h, n.items[j]) { ItemValid(h, n, j); }
          }
          r := SerializeList(h, n.items, obj.id, None);
          if r.Fail? {
            ghost var t1 := jw.tokens;
            r := WriteRaw(obj, fromObjectFails);
            AppendsTrans(t0, t1, jw.tokens, propertiesToIgnore);
          }
        } else {
          r := WriteRaw(obj, fromObjectFails);
        }
      } else {
        r := SerializeObject(h, obj, None);
      }
    }

    /** WriteRawValue(JToken.FromObject(obj).ToString()): Json.NET's
        serialization runs first, then the writer takes the raw text. */
    method WriteRaw(obj: Value, fromObjectFails: FromObjectFails) returns (r: Outcome<Failure>)
      modifies jw
      ensures r.Pass? == (!fromObjectFails(obj) && old(jw.AcceptsValue()))
      ensures r.Pass? ==> jw.tokens == old(jw.tokens) + [RawValue(obj)]
      ensures r.Fail? ==> jw.tokens == old(jw.tokens)
      ensures r.Fail? ==> r == (if fromObjectFails(obj) then Fail(FromObjectFailed) else Fail(WriterRejected(RawValue(obj))))
      ensures Appends(old(jw.tokens), jw.tokens, propertiesToIgnore)
    {
      if fromObjectFails(obj) {
        return Fail(FromObjectFailed);
      }
      AppendsToken(jw.tokens, RawValue(obj), propertiesToIgnore);
      var ok := jw.WriteScalar(RawValue(obj));
      r := if ok then Pass else Fail(WriterRejected(RawValue(obj)));
    }

    ghost predicate ListSkipped(items: seq<Value>, hashCode: nat, name: Option<string>)
      reads this
    {
      items == [] || depth > maxDepth || (name.Some? && name.value in propertiesToIgnore) ||
      RegisteredElsewhere(hashCode) ||
      exists j :: 0 <= j < |items| && items[j].Ref? && RegisteredElsewhere(items[j].id)
    }

    // A list is written as an array one level deeper, unless it is empty, too
    // deep, ignored, or it or one of its elements is registered at another
    // depth; then nothing at all is written.
    method SerializeList(h: Heap, items: seq<Value>, hashCode: nat, name: Option<string>)
      returns (r: Outcome<Failure>)
      requires WellFormed(h) && forall j :: 0 <= j < |items| ==> Valid(h, items[j])
      requires name.Some? ==> jw.AwaitingName()
      modifies this`depth, this`hashDictionary, jw
      decreases maxDepth + 1 - depth, 3
      ensures Extends(old(hashDictionary), hashDictionary)
      ensures NewKeysWithin(old(hashDictionary), hashDictionary, old(depth) + 1, maxDepth)
      ensures Appends(old(jw.tokens), jw.tokens, propertiesToIgnore)
      ensures old(ListSkipped(items, hashCode, name)) ==>
        r.Pass? && unchanged(jw) && hashDictionary == old(hashDictionary) && depth == old(depth)
      ensures !old(ListSkipped(items, hashCode, name)) && r.Pass? ==> (
        depth == old(depth) && jw.open == old(jw.open) && !jw.afterName &&
        ArrayBody(h, items, name, old(depth), WalkSettings(maxDepth, propertiesToIgnore, format), jw.tokens[|old(jw.tokens)|..]))
      ensures !old(ListSkipped(items, hashCode, name)) && (exists j :: 0 <= j < |items| && items[j].Null?) ==> r.Fail?
      ensures r.Pass? ==> ListRun(h, items, name, old(depth), WalkSettings(maxDepth, propertiesToIgnore, format), jw.tokens[|old(jw.tokens)|..])
    {
      if items == [] || depth > maxDepth || (name.Some? && name.value in propertiesToIgnore) {
        return Pass;
      }
      if hashCode in hashDictionary && hashDictionary[hashCode] != depth {
        return Pass;
      }
      var taken := AnyRegisteredElsewhere(items);
      if taken {
        return Pass;
      }
      r := WriteArray(h, items, name);
    }

    // The scan over the elements: some element object was registered at
    // another depth.
    method AnyRegisteredElsewhere(items: seq<Value>) returns (b: bool)
      ensures b <==> exists j :: 0 <= j < |items| && items[j].Ref? && RegisteredElsewhere(items[j].id)
    {
      var i := 0;
      while i < |items|
        invariant 0 <= i <= |items|
        invariant forall j :: 0 <= j < i ==> !(items[j].Ref? && RegisteredElsewhere(items[j].id))
      {
        if items[i].Ref? && items[i].id in hashDictionary && hashDictionary[items[i].id] != depth {
          return true;
        }
        i := i + 1;
      }
      return false;
    }

    // The brackets of a list one level deeper: its property name (if any),
    // then [, the elements and ].
    method WriteArray(h: Heap, items: seq<Value>, name: Option<string>) returns (r: Outcome<Failure>)
      requires WellFormed(h) && forall j :: 0 <= j < |items| ==> Valid(h, items[j])
      requires name.Some? ==> jw.AwaitingName() && name.value !in propertiesToIgnore
      requires depth <= maxDepth
      modifies this`depth, this`hashDictionary, jw
      decreases maxDepth + 1 - depth, 0
      ensures Extends(old(hashDictionary), hashDictionary)
      ensures NewKeysWithin(old(hashDictionary), hashDictionary, old(depth) + 1, maxDepth)
      ensures Appends(old(jw.tokens), jw.tokens, propertiesToIgnore)
      ensures r.Pass? ==> (depth == old(depth) && jw.open == old(jw.open) && !jw.afterName &&
        ArrayBody(h, items, name, old(depth), WalkSettings(maxDepth, propertiesToIgnore, format), jw.tokens[|old(jw.tokens)|..]))
      ensures (exists j :: 0 <= j < |items| && items[j].Null?) ==> r.Fail?
    {
      ghost var t0 := jw.tokens;
      depth := depth + 1;
      var ok := OpenContainer(jw, name, InArray, propertiesToIgnore);
      if !ok {
        return Fail(WriterRejected(StartArray));
      }
      ghost var t1 := jw.tokens;
      ghost var runs;
      r, runs := WriteElements(h, items, name);
      if r.Fail? {
        AppendsTrans(t0, t1, jw.tokens, propertiesToIgnore);
        return;
      }
      ghost var t2 := jw.tokens;
      CloseContainer(jw, InArray, propertiesToIgnore);
      depth := depth - 1;
      Closed(t0, t1, t2, jw.tokens, name, StartArray, Flatten(runs), EndArray, propertiesToIgnore);
      ArrayBodyIntro(h, items, name, old(depth), WalkSettings(maxDepth, propertiesToIgnore, format), runs);
    }

    // The elements of a list, inside its array: simple values through
    // WriteValue, everything else as an object. A null element throws.
    method WriteElements(h: Heap, items: seq<Value>, name: Option<string>)
      returns (r: Outcome<Failure>, ghost runs: seq<seq<Token>>)
      requires WellFormed(h) && forall j :: 0 <= j < |items| ==> Valid(h, items[j])
      requires jw.open != [] && jw.open[|jw.open| - 1] == InArray && !jw.afterName
      modifies this`depth, this`hashDictionary, jw
      decreases maxDepth + 1 - depth, 5
      ensures Extends(old(hashDictionary), hashDictionary)
      ensures NewKeysWithin(old(hashDictionary), hashDictionary, old(depth), maxDepth)
      ensures Appends(old(jw.tokens), jw.tokens, propertiesToIgnore)
      ensures r.Pass? ==> depth == old(depth) && jw.open == old(jw.open) && !jw.afterName
      ensures (exists j :: 0 <= j < |items| && items[j].Null?) ==> r.Fail?
      ensures r.Pass? ==> (|runs| == |items| && jw.tokens == old(jw.tokens) + Flatten(runs) &&
        ElementRuns(h, items, old(depth), WalkSettings(maxDepth, propertiesToIgnore, format), runs))
    {
      runs := [];
      ghost var ws := WalkSettings(maxDepth, propertiesToIgnore, format);
      var i := 0;
      while i < |items|
        invariant 0 <= i <= |items| && |runs| == i
        invariant depth == old(depth) && jw.open == old(jw.open) && !jw.afterName
        invariant Extends(old(hashDictionary), hashDictionary)
        invariant NewKeysWithin(old(hashDictionary), hashDictionary, old(depth), maxDepth)
        invariant Appends(old(jw.tokens), jw.tokens, propertiesToIgnore)
        invariant jw.tokens == old(jw.tokens) + Flatten(runs)
        invariant ws == WalkSettings(maxDepth, propertiesToIgnore, format)
        invariant ElementRuns(h, items, old(depth), ws, runs)
      {
        ghost var t0 := jw.tokens;
        ghost var m0 := hashDictionary;
        ghost var run;
        r, run := WriteElement(h, items[i], name);
        ElementStep(old(hashDictionary), m0, hashDictionary, old(depth), maxDepth,
                    old(jw.tokens), t0, jw.tokens, propertiesToIgnore, h, items, ws, runs, run, r.Pass?);
        if r.Fail? {
          return;
        }
        runs := runs + [run];
        i := i + 1;
      }
      r := Pass;
    }

    // One element: a simple value through WriteValue, anything else as an
    // object; a null element throws.
    method WriteElement(h: Heap, v: Value, name: Option<string>) returns (r: Outcome<Failure>, ghost run: seq<Token>)
      requires WellFormed(h) && Valid(h, v)
      requires jw.open != [] && jw.open[|jw.open| - 1] == InArray && !jw.afterName
      modifies this`depth, this`hashDictionary, jw
      decreases maxDepth + 1 - depth, 4
      ensures Extends(old(hashDictionary), hashDictionary)
      ensures NewKeysWithin(old(hashDictionary), hashDictionary, old(depth), maxDepth)
      ensures Appends(old(jw.tokens), jw.tokens, propertiesToIgnore)
      ensures r.Pass? ==> depth == old(depth) && jw.open == old(jw.open) && !jw.afterName
      ensures v.Null? ==> r.Fail?
      ensures r.Pass? ==> jw.tokens == old(jw.tokens) + run && ElementRun(h, v, old(depth), WalkSettings(maxDepth, propertiesToIgnore, format), run)
    {
      run := [];
      if v.Null? {
        r := Fail(NullReference);
        return;
      }
      if IsSimple(h[v.id].typ) {
        if !JsonNetWritable(h[v.id].typ) {
          r := Fail(ValueRejected(name));
          return;
        }
        AppendsToken(jw.tokens, ValueOf(v), propertiesToIgnore);
        var ok := jw.WriteScalar(ValueOf(v));
        assert ok;
        run := [ValueOf(v)];
        r := Pass;
      } else {
        r := SerializeObject(h, v, None);
        run := jw.tokens[|old(jw.tokens)|..];
        assert jw.tokens == old(jw.tokens) + run;
      }
    }

    ghost predicate ObjectSkipped(v: Value, name: Option<string>)
      reads this
    {
      v.Null? || depth > maxDepth || (name.Some? && name.value in propertiesToIgnore)
    }

    // An object that reaches the property walk: not skipped, not written as a
    // scalar, its formats all render and it carries no simple-value tag.
    ghost predicate PlainObject(h: Heap, v: Value, name: Option<string>)
      reads this
    {
      !ObjectSkipped(v, name) && v.id in h && !PrimitiveLike(h[v.id].typ) &&
      FormatsOk(h[v.id], format) &&
      h[v.id].typ.simpleValue.None?
    }

    // An object is written one level deeper as {...}, after registering it at
    // the current depth if it was not registered yet. It writes nothing when
    // skipped, or when it has navigation properties and is registered at a
    // different depth. Scalars are written with ToString(), and a type with a
    // simple-value tag as the value of that property.
    method SerializeObject(h: Heap, v: Value, name: Option<string>) returns (r: Outcome<Failure>)
      requires WellFormed(h) && Valid(h, v)
      requires name.Some? ==> jw.AwaitingName()
      modifies this`depth, this`hashDictionary, jw
      decreases maxDepth + 1 - depth, 3
      ensures Extends(old(hashDictionary), hashDictionary)
      ensures NewKeysWithin(old(hashDictionary), hashDictionary, old(depth), maxDepth)
      ensures v.Ref? && v.id in hashDictionary && v.id !in old(hashDictionary) ==> hashDictionary[v.id] == old(depth)
      ensures Appends(old(jw.tokens), jw.tokens, propertiesToIgnore)
      ensures r.Pass? ==> (depth == old(depth) && jw.open == old(jw.open) &&
        (if jw.tokens == old(jw.tokens) then jw.afterName == old(jw.afterName) else !jw.afterName))
      ensures old(ObjectSkipped(v, name)) ==>
        r.Pass? && unchanged(jw) && hashDictionary == old(hashDictionary) && depth == old(depth)
      ensures old(PlainObject(h, v, name)) && Navigable(h[v.id]) && old(RegisteredElsewhere(v.id)) ==>
        r.Pass? && unchanged(jw) && hashDictionary == old(hashDictionary)
      ensures old(PlainObject(h, v, name)) && !(Navigable(h[v.id]) && old(RegisteredElsewhere(v.id))) ==> (
        v.id in hashDictionary &&
        (r.Pass? ==> ObjectBody(h, Described(h[v.id], format), name, old(depth), WalkSettings(maxDepth, propertiesToIgnore, format), jw.tokens[|old(jw.tokens)|..])))
      ensures (!old(ObjectSkipped(v, name)) && v.Ref? && !PrimitiveLike(h[v.id].typ) &&
        !FormatsOk(h[v.id], format)) ==>
        r.Fail? && r.error.BadFormat? && unchanged(jw)
      ensures r.Pass? ==> ObjectRun(h, v, name, old(depth), WalkSettings(maxDepth, propertiesToIgnore, format), jw.tokens[|old(jw.tokens)|..])
    {
      if v.Null? || depth > maxDepth || (name.Some? && name.value in propertiesToIgnore) {
        return Pass;
      }
      var n := h[v.id];
      if PrimitiveLike(n.typ) {
        AppendsToken(jw.tokens, StringValue(n.scalar.text), propertiesToIgnore);
        var ok := jw.WriteScalar(StringValue(n.scalar.text));
        return if ok then Pass else Fail(ValueRejected(name));
      }
      r := SerializeNode(h, v, name);
    }

    // The rest of SerializeObject, for an object that is neither skipped nor
    // written as a scalar: its property list, the simple-value tag, the
    // registration test and the braces.
    method SerializeNode(h: Heap, v: Value, name: Option<string>) returns (r: Outcome<Failure>)
      requires WellFormed(h) && Valid(h, v)
      requires name.Some? ==> jw.AwaitingName()
      requires !ObjectSkipped(v, name) && !PrimitiveLike(h[v.id].typ)
      modifies this`depth, this`hashDictionary, jw
      decreases maxDepth + 1 - depth, 2
      ensures Extends(old(hashDictionary), hashDictionary)
      ensures NewKeysWithin(old(hashDictionary), hashDictionary, old(depth), maxDepth)
      ensures v.id in hashDictionary && v.id !in old(hashDictionary) ==> hashDictionary[v.id] == old(depth)
      ensures Appends(old(jw.tokens), jw.tokens, propertiesToIgnore)
      ensures r.Pass? ==> (depth == old(depth) && jw.open == old(jw.open) &&
        (if jw.tokens == old(jw.tokens) then jw.afterName == old(jw.afterName) else !jw.afterName))
      ensures old(PlainObject(h, v, name)) && Navigable(h[v.id]) && old(RegisteredElsewhere(v.id)) ==>
        r.Pass? && unchanged(jw) && hashDictionary == old(hashDictionary)
      ensures old(PlainObject(h, v, name)) && !(Navigable(h[v.id]) && old(RegisteredElsewhere(v.id))) ==> (
        v.id in hashDictionary &&
        (r.Pass? ==> ObjectBody(h, Described(h[v.id], format), name, old(depth), WalkSettings(maxDepth, propertiesToIgnore, format), jw.tokens[|old(jw.tokens)|..])))
      ensures !FormatsOk(h[v.id], format) ==> r.Fail? && r.error.BadFormat? && unchanged(jw)
      ensures r.Pass? ==> NodeRun(h, h[v.id], name, old(depth), WalkSettings(maxDepth, propertiesToIgnore, format), jw.tokens[|old(jw.tokens)|..])
    {
      var n := h[v.id];
      var res := Properties(n, format);
      if res.Failure? {
        return Fail(res.error);
      }
      var props := res.value;
      DescribedValid(h, n, format);
      if n.typ.simpleValue.Some? {
        r := WriteSimpleValue(h, n, props, name);
        return;
      }
      NavigableDescribed(n, format);
      r := WriteTracked(h, v.id, props, name);
    }

    // The registration test and the braces: an object with navigation
    // properties registered at another depth writes nothing; otherwise it is
    // registered (when it was not yet) and written.
    method WriteTracked(h: Heap, id: nat, props: seq<Property>, name: Option<string>) returns (r: Outcome<Failure>)
      requires WellFormed(h) && forall i :: 0 <= i < |props| ==> Valid(h, props[i].value)
      requires name.Some? ==> jw.AwaitingName() && name.value !in propertiesToIgnore
      requires depth <= maxDepth
      modifies this`depth, this`hashDictionary, jw
      decreases maxDepth + 1 - depth, 1
      ensures Extends(old(hashDictionary), hashDictionary)
      ensures NewKeysWithin(old(hashDictionary), hashDictionary, old(depth), maxDepth)
      ensures id in hashDictionary && id !in old(hashDictionary) ==> hashDictionary[id] == old(depth)
      ensures Appends(old(jw.tokens), jw.tokens, propertiesToIgnore)
      ensures r.Pass? ==> (depth == old(depth) && jw.open == old(jw.open) &&
        (if jw.tokens == old(jw.tokens) then jw.afterName == old(jw.afterName) else !jw.afterName))
      ensures HasNavigationProperties(props) && old(RegisteredElsewhere(id)) ==>
        r.Pass? && unchanged(jw) && hashDictionary == old(hashDictionary)
      ensures !(HasNavigationProperties(props) && old(RegisteredElsewhere(id))) ==> (
        id in hashDictionary &&
        (r.Pass? ==> ObjectBody(h, props, name, old(depth), WalkSettings(maxDepth, propertiesToIgnore, format), jw.tokens[|old(jw.tokens)|..])))
      ensures r.Pass? ==> TrackedRun(h, props, name, old(depth), WalkSettings(maxDepth, propertiesToIgnore, format), jw.tokens[|old(jw.tokens)|..])
    {
      if HasNavigationProperties(props) && id in hashDictionary && hashDictionary[id] != depth {
        return Pass;
      }
      if id !in hashDictionary {
        hashDictionary := hashDictionary[id := depth];
      }
      r := WriteObject(h, props, name);
    }

    // The braces of an object one level deeper: its property name (if any),
    // then {, the properties and }.
    method WriteObject(h: Heap, props: seq<Property>, name: Option<string>) returns (r: Outcome<Failure>)
      requires WellFormed(h) && forall i :: 0 <= i < |props| ==> Valid(h, props[i].value)
      requires name.Some? ==> jw.AwaitingName() && name.value !in propertiesToIgnore
      requires depth <= maxDepth
      modifies this`depth, this`hashDictionary, jw
      decreases maxDepth + 1 - depth, 0
      ensures Extends(old(hashDictionary), hashDictionary)
      ensures NewKeysWithin(old(hashDictionary), hashDictionary, old(depth) + 1, maxDepth)
      ensures Appends(old(jw.tokens), jw.tokens, propertiesToIgnore)
      ensures r.Pass? ==> (depth == old(depth) && jw.open == old(jw.open) && !jw.afterName &&
        ObjectBody(h, props, name, old(depth), WalkSettings(maxDepth, propertiesToIgnore, format), jw.tokens[|old(jw.tokens)|..]))
    {
      ghost var t0 := jw.tokens;
      depth := depth + 1;
      var ok := OpenContainer(jw, name, InObject, propertiesToIgnore);
      if !ok {
        return Fail(WriterRejected(StartObject));
      }
      ghost var t1 := jw.tokens;
      ghost var runs;
      r, runs := WriteProperties(h, props);
      if r.Fail? {
        AppendsTrans(t0, t1, jw.tokens, propertiesToIgnore);
        return;
      }
      ghost var t2 := jw.tokens;
      CloseContainer(jw, InObject, propertiesToIgnore);
      depth := depth - 1;
      Closed(t0, t1, t2, jw.tokens, name, StartObject, Flatten(runs), EndObject, propertiesToIgnore);
      ObjectBodyIntro(h, props, name, old(depth), WalkSettings(maxDepth, propertiesToIgnore, format), runs);
    }

    // A type tagged [JsonSimpleValue("P")]: the property name (even when it is
    // null), then the value of P. A tag naming no property throws.
    method WriteSimpleValue(h: Heap, n: Node, props: seq<Property>, name: Option<string>)
      returns (r: Outcome<Failure>)
      requires WellFormed(h) && forall i :: 0 <= i < |props| ==> Valid(h, props[i].value)
      requires n.typ.simpleValue.Some?
      requires name.Some? ==> jw.AwaitingName() && name.value !in propertiesToIgnore
      modifies jw
      ensures Appends(old(jw.tokens), jw.tokens, propertiesToIgnore)
      ensures r.Pass? ==> (jw.open == old(jw.open) && !jw.afterName &&
        FindProperty(props, n.typ.simpleValue.value).Some? &&
        jw.tokens == old(jw.tokens) + [NameToken(name), ValueOf(props[FindProperty(props, n.typ.simpleValue.value).value].value)])
      ensures FindProperty(props, n.typ.simpleValue.value).None? ==>
        r == (if old(jw.AcceptsName()) then Fail(UndefinedValueProperty(n.typ.name, name))
              else Fail(PropertyNameRejected(name)))
      ensures name.None? && !old(jw.AcceptsName()) ==>
        r == Fail(PropertyNameRejected(None)) && jw.tokens == old(jw.tokens)
    {
      AppendsToken(jw.tokens, NameToken(name), propertiesToIgnore);
      var ok := jw.WritePropertyName(name);
      if !ok {
        return Fail(PropertyNameRejected(name));
      }
      ghost var t1 := jw.tokens;
      var k := FindProperty(props, n.typ.simpleValue.value);
      if k.None? {
        return Fail(UndefinedValueProperty(n.typ.name, name));
      }
      var p := props[k.value];
      if p.value.Ref? && !JsonNetWritable(h[p.value.id].typ) {
        return Fail(ValueRejected(name));
      }
      AppendsToken(jw.tokens, ValueOf(p.value), propertiesToIgnore);
      ok := jw.WriteScalar(ValueOf(p.value));
      assert ok;
      AppendsTrans(old(jw.tokens), t1, jw.tokens, propertiesToIgnore);
      r := Pass;
    }

    // The body of an object: its properties in order, inside its braces.
    method WriteProperties(h: Heap, props: seq<Property>) returns (r: Outcome<Failure>, ghost runs: seq<seq<Token>>)
      requires WellFormed(h) && forall i :: 0 <= i < |props| ==> Valid(h, props[i].value)
      requires jw.AwaitingName()
      modifies this`depth, this`hashDictionary, jw
      decreases maxDepth + 1 - depth, 6
      ensures Extends(old(hashDictionary), hashDictionary)
      ensures NewKeysWithin(old(hashDictionary), hashDictionary, old(depth), maxDepth)
      ensures Appends(old(jw.tokens), jw.tokens, propertiesToIgnore)
      ensures r.Pass? ==> depth == old(depth) && jw.open == old(jw.open) && !jw.afterName
      ensures r.Pass? ==> (|runs| == |props| && jw.tokens == old(jw.tokens) + Flatten(runs) &&
        PropertyRuns(h, props, old(depth), WalkSettings(maxDepth, propertiesToIgnore, format), runs))
    {
      runs := [];
      ghost var ws := WalkSettings(maxDepth, propertiesToIgnore, format);
      var i := 0;
      while i < |props|
        invariant 0 <= i <= |props| && |runs| == i
        invariant depth == old(depth) && jw.open == old(jw.open) && !jw.afterName
        invariant Extends(old(hashDictionary), hashDictionary)
        invariant NewKeysWithin(old(hashDictionary), hashDictionary, old(depth), maxDepth)
        invariant Appends(old(jw.tokens), jw.tokens, propertiesToIgnore)
        invariant jw.tokens == old(jw.tokens) + Flatten(runs)
        invariant ws == WalkSettings(maxDepth, propertiesToIgnore, format)
        invariant PropertyRuns(h, props, old(depth), ws, runs)
      {
        ghost var t0 := jw.tokens;
        ghost var m0 := hashDictionary;
        ghost var run;
        r, run := WriteProperty(h, props[i]);
        PropertyStep(old(hashDictionary), m0, hashDictionary, old(depth), maxDepth,
                     old(jw.tokens), t0, jw.tokens, propertiesToIgnore, h, props, ws, runs, run, r.Pass?);
        if r.Fail? {
          return;
        }
        runs := runs + [run];
        i := i + 1;
      }
      r := Pass;
    }

    // One property: a list or array recurses as a list, a user object as an
    // object, a formatted value is written as its text, and any other
    // non-ignored value through WriteValue. A null list, array or user object
    // that has no format writes nothing.
    method WriteProperty(h: Heap, p: Property) returns (r: Outcome<Failure>, ghost run: seq<Token>)
      requires WellFormed(h) && Valid(h, p.value)
      requires jw.AwaitingName()
      modifies this`depth, this`hashDictionary, jw
      decreases maxDepth + 1 - depth, 5
      ensures Extends(old(hashDictionary), hashDictionary)
      ensures NewKeysWithin(old(hashDictionary), hashDictionary, old(depth), maxDepth)
      ensures Appends(old(jw.tokens), jw.tokens, propertiesToIgnore)
      ensures r.Pass? ==> depth == old(depth) && jw.open == old(jw.open) && !jw.afterName
      ensures !(p.isCollection || p.isArray || p.isObject) && p.name !in propertiesToIgnore ==>
        r.Pass? == (p.formatted.Some? || p.value.Null? || JsonNetWritable(h[p.value.id].typ))
      ensures r.Pass? ==> (jw.tokens == old(jw.tokens) + run &&
        PropertyRun(h, p, old(depth), WalkSettings(maxDepth, propertiesToIgnore, format), run))
    {
      if (p.isCollection || p.isArray) && p.value.Ref? {
        r, run := WriteListProperty(h, p);
        return;
      } else if p.isObject && p.value.Ref? {
        r := SerializeObject(h, p.value, Some(p.name));
      } else if p.formatted.Some? && p.name !in propertiesToIgnore {
        WriteNamedScalar(jw, p.name, StringValue(p.formatted.value), propertiesToIgnore);
        r := Pass;
      } else if !p.isCollection && !p.isArray && !p.isObject && p.name !in propertiesToIgnore {
        if p.value.Ref? && !JsonNetWritable(h[p.value.id].typ) {
          // the name is already out when the value is refused
          AppendsToken(jw.tokens, PropertyName(p.name), propertiesToIgnore);
          var ok := jw.WritePropertyName(Some(p.name));
          assert ok;
          r, run := Fail(ValueRejected(Some(p.name))), [];
          return;
        }
        WriteNamedScalar(jw, p.name, ValueOf(p.value), propertiesToIgnore);
        r := Pass;
      } else {
        r := Pass;
      }
      run := jw.tokens[|old(jw.tokens)|..];
    }

    // A list or array property: the value `as IList`, serialized as a list
    // under the property's name; a value that is not an IList writes nothing.
    method WriteListProperty(h: Heap, p: Property) returns (r: Outcome<Failure>, ghost run: seq<Token>)
      requires WellFormed(h) && Valid(h, p.value) && (p.isCollection || p.isArray) && p.value.Ref?
      requires jw.AwaitingName()
      modifies this`depth, this`hashDictionary, jw
      decreases maxDepth + 1 - depth, 4
      ensures Extends(old(hashDictionary), hashDictionary)
      ensures NewKeysWithin(old(hashDictionary), hashDictionary, old(depth), maxDepth)
      ensures Appends(old(jw.tokens), jw.tokens, propertiesToIgnore)
      ensures r.Pass? ==> depth == old(depth) && jw.open == old(jw.open) && !jw.afterName
      ensures !ImplementsIList(h[p.value.id].typ) ==> r.Pass? && unchanged(jw)
      ensures ImplementsIList(h[p.value.id].typ) && !old(ListSkipped(h[p.value.id].items, p.value.id, Some(p.name))) && r.Pass? ==>
        ArrayBody(h, h[p.value.id].items, Some(p.name), old(depth), WalkSettings(maxDepth, propertiesToIgnore, format), run)
      ensures r.Pass? ==> (jw.tokens == old(jw.tokens) + run &&
        PropertyRun(h, p, old(depth), WalkSettings(maxDepth, propertiesToIgnore, format), run))
    {
      var n := h[p.value.id];
      if ImplementsIList(n.typ) {
        forall j | 0 <= j < |n.items| ensures Valid(h, n.items[j]) {
          ItemValid(h, n, j);
        }
        r := SerializeList(h, n.items, p.value.id, Some(p.name));
      } else {
        r := Pass;  // `as IList` gives null: nothing is written
      }
      run := jw.tokens[|old(jw.tokens)|..];
    }

  }
}
