// The older converter of the EDennis.SafeJsonConverter project
// (EDennis.SafeJsonConverter/SafeJsonConverter.cs), with its nested
// serializer.
//
// The nested serializer starts at depth 0 and suppresses any object or list
// that is registered at a different depth, whatever its properties. Only
// List<> properties recurse as arrays; arrays and every other value that is
// not a user object go through JsonWriter.WriteValue. Nothing is wrapped: the
// exceptions of String.Format and of the writer escape as they are.
module NestedSafeJsonConverter {
  import opened Wrappers
  import opened ObjectGraph
  import opened JsonTokens

  datatype Failure =
    | FormatError(typeName: string, propName: string, format: string)  // String.Format's FormatException
    | ValueRejected(propName: string)                                  // WriteValue of an unsupported type
    | WriterRejected(token: Token)                                     // JsonWriterException
    | NullReference                                                    // NullReferenceException

  // The nested Property class: name, declared type with Nullable<T>
  // unwrapped, value, formatted text, List<> and user-object flags.
  datatype Property = Property(
    name: string,
    typ: TypeDesc,
    isNullable: bool,
    value: Value,
    formatted: Option<string>,
    isCollection: bool,
    isObject: bool)

  function Describe(p: Prop, formatted: Option<string>): Property
  {
    var t := p.declared.(nullable := false);
    Property(p.name, t, p.declared.nullable, p.value, formatted,
             t.shape.GenericListType?, IsClass(t) && !t.inSystem)
  }

  // The Properties constructor: one descriptor per property, in order; the
  // first format that does not render throws.
  method Properties(n: Node, format: Formatter) returns (r: Result<seq<Property>, Failure>)
    ensures r.Success? <==> FormatsOk(n, format)
    ensures r.Success? ==> (|r.value| == |n.props| &&
      forall i :: 0 <= i < |n.props| ==> r.value[i] == Describe(n.props[i], Formatted(n.props[i], format)))
    ensures r.Success? ==> r.value == Described(n, format)
    ensures r.Failure? ==> exists k :: (0 <= k < |n.props| && !FormatOk(n.props[k], format) &&
      (forall j :: 0 <= j < k ==> FormatOk(n.props[j], format)) &&
      r.error == FormatError(n.typ.name, n.props[k].name, n.props[k].format.value))
  {
    var acc: seq<Property> := [];
    var i := 0;
    while i < |n.props|
      invariant 0 <= i <= |n.props| && |acc| == i
      invariant forall j :: 0 <= j < i ==> FormatOk(n.props[j], format)
      invariant forall j :: 0 <= j < i ==> acc[j] == Describe(n.props[j], Formatted(n.props[j], format))
    {
      var p := n.props[i];
      var formatted: Option<string> := None;
      if p.format.Some? {
        formatted := format(p.format.value, p.value);
        if formatted.None? {
          return Failure(FormatError(n.typ.name, p.name, p.format.value));
        }
      }
      acc := acc + [Describe(p, formatted)];
      i := i + 1;
    }
    DescribeAllAt(n.props, format);
    return Success(acc);
  }

  // The descriptors the Properties constructor builds for a node whose
  // formats all render.
  function Described(n: Node, format: Formatter): seq<Property>
  {
    DescribeAll(n.props, format)
  }

  function DescribeAll(ps: seq<Prop>, format: Formatter): seq<Property>
  {
    if ps == [] then [] else DescribeAll(ps[..|ps| - 1], format) + [Describe(ps[|ps| - 1], Formatted(ps[|ps| - 1], format))]
  }

  lemma {:induction false} DescribeAllAt(ps: seq<Prop>, format: Formatter)
    ensures |DescribeAll(ps, format)| == |ps|
    ensures forall i :: 0 <= i < |ps| ==> DescribeAll(ps, format)[i] == Describe(ps[i], Formatted(ps[i], format))
  {
    if ps != [] {
      DescribeAllAt(ps[..|ps| - 1], format);
    }
  }

  lemma DescribedValid(h: Heap, n: Node, format: Formatter)
    requires NodeClosed(h, n)
    ensures forall i :: 0 <= i < |Described(n, format)| ==> Valid(h, Described(n, format)[i].value)
  {
    DescribeAllAt(n.props, format);
    forall i | 0 <= i < |n.props| ensures Valid(h, n.props[i].value) {
      PropValueValid(h, n, i);
    }
  }

  // The output grammar: the token runs a call appends when it returns
  // normally, by what it is asked to write and the depth d it is called at.
  // Whether an object or a list is suppressed depends on the depths recorded
  // by earlier writes, so such a run is either empty or written in full;
  // every other run is determined by the graph and the settings.

  // SerializeObject(v, name) at depth d: nothing when v is null, too deep or
  // ignored; otherwise nothing (registered elsewhere) or the object.
  ghost predicate ObjectRun(h: Heap, v: Value, name: Option<string>, d: int, s: WalkSettings, run: seq<Token>)
    decreases s.maxDepth + 1 - d, 5
  {
    if v.Null? || d > s.maxDepth || (name.Some? && name.value in s.ignore) then run == []
    else v.id in h && (run == [] || (FormatsOk(h[v.id], s.format) && ObjectBody(h, Described(h[v.id], s.format), name, d, s, run)))
  }

  // The name, {, one run per property in order, }.
  ghost predicate ObjectBody(h: Heap, ps: seq<Property>, name: Option<string>, d: int, s: WalkSettings, run: seq<Token>)
    decreases s.maxDepth + 1 - d, 2
  {
    d <= s.maxDepth &&
    exists runs: seq<seq<Token>> :: |runs| == |ps| &&
      run == NameTokens(name) + [StartObject] + Flatten(runs) + [EndObject] &&
      PropertyRuns(h, ps, d + 1, s, runs)
  }

  // One property run per property so far, in order.
  ghost predicate PropertyRuns(h: Heap, ps: seq<Property>, d: int, s: WalkSettings, runs: seq<seq<Token>>)
    decreases s.maxDepth + 1 - d, 8
  {
    |runs| <= |ps| && forall i :: 0 <= i < |runs| ==> PropertyRun(h, ps[i], d, s, runs[i])
  }

  // One property inside an object at depth d.
  ghost predicate PropertyRun(h: Heap, p: Property, d: int, s: WalkSettings, run: seq<Token>)
    decreases s.maxDepth + 1 - d, 7
  {
    if p.isCollection && p.value.Ref? then
      p.value.id in h &&
      if ImplementsIList(h[p.value.id].typ) then ListRun(h, h[p.value.id].items, Some(p.name), d, s, run)
      else run == []
    else if p.isObject && p.value.Ref? then ObjectRun(h, p.value, Some(p.name), d, s, run)
    else if p.formatted.Some? && p.name !in s.ignore then
      run == [PropertyName(p.name), StringValue(p.formatted.value)]
    else if !p.isCollection && !p.isObject && p.name !in s.ignore then
      run == [PropertyName(p.name), ValueOf(p.value)]
    else run == []
  }

  // SerializeList(items, name) at depth d: nothing when it is empty, too
  // deep or ignored; otherwise nothing (suppressed) or the array.
  ghost predicate ListRun(h: Heap, items: seq<Value>, name: Option<string>, d: int, s: WalkSettings, run: seq<Token>)
    decreases s.maxDepth + 1 - d, 6
  {
    if items == [] || d > s.maxDepth || (name.Some? && name.value in s.ignore) then run == []
    else run == [] || ArrayBody(h, items, name, d, s, run)
  }

  // The name, [, one object run per element in order, ].
  ghost predicate ArrayBody(h: Heap, items: seq<Value>, name: Option<string>, d: int, s: WalkSettings, run: seq<Token>)
    decreases s.maxDepth + 1 - d, 2
  {
    d <= s.maxDepth &&
    exists runs: seq<seq<Token>> :: |runs| == |items| &&
      run == NameTokens(name) + [StartArray] + Flatten(runs) + [EndArray] &&
      ElementRuns(h, items, d + 1, s, runs)
  }

  // One element run per element so far, in order: every element is
  // written as an object, without a name.
  ghost predicate ElementRuns(h: Heap, items: seq<Value>, d: int, s: WalkSettings, runs: seq<seq<Token>>)
    decreases s.maxDepth + 1 - d, 8
  {
    |runs| <= |items| && forall j :: 0 <= j < |runs| ==> ObjectRun(h, items[j], None, d, s, runs[j])
  }

  lemma ObjectBodyIntro(h: Heap, ps: seq<Property>, name: Option<string>, d: int, s: WalkSettings, runs: seq<seq<Token>>)
    requires d <= s.maxDepth && |runs| == |ps|
    requires PropertyRuns(h, ps, d + 1, s, runs)
    ensures ObjectBody(h, ps, name, d, s, NameTokens(name) + [StartObject] + Flatten(runs) + [EndObject])
  {
  }

  lemma ArrayBodyIntro(h: Heap, items: seq<Value>, name: Option<string>, d: int, s: WalkSettings, runs: seq<seq<Token>>)
    requires d <= s.maxDepth && |runs| == |items|
    requires ElementRuns(h, items, d + 1, s, runs)
    ensures ArrayBody(h, items, name, d, s, NameTokens(name) + [StartArray] + Flatten(runs) + [EndArray])
  {
  }

  // One iteration of the property and element loops: the registration map,
  // the token stream and the runs so far each absorb what the call appended.
  lemma PropertyStep(m00: map<nat, int>, m0: map<nat, int>, m1: map<nat, int>, d: int, maxDepth: int,
                     t00: seq<Token>, t0: seq<Token>, t1: seq<Token>, ignore: set<string>,
                     h: Heap, ps: seq<Property>, s: WalkSettings, runs: seq<seq<Token>>, run: seq<Token>, pass: bool)
    requires Extends(m00, m0) && NewKeysWithin(m00, m0, d, maxDepth)
    requires Extends(m0, m1) && NewKeysWithin(m0, m1, d, maxDepth)
    requires Appends(t00, t0, ignore) && Appends(t0, t1, ignore)
    requires t0 == t00 + Flatten(runs) && PropertyRuns(h, ps, d, s, runs) && |runs| < |ps|
    requires pass ==> t1 == t0 + run && PropertyRun(h, ps[|runs|], d, s, run)
    ensures Extends(m00, m1) && NewKeysWithin(m00, m1, d, maxDepth)
    ensures Appends(t00, t1, ignore)
    ensures pass ==> t1 == t00 + Flatten(runs + [run]) && PropertyRuns(h, ps, d, s, runs + [run])
  {
    GrowsTrans(m00, m0, m1, d, maxDepth);
    AppendsTrans(t00, t0, t1, ignore);
    if pass {
      FlattenSnoc(runs, run);
    }
  }

  lemma ElementStep(m00: map<nat, int>, m0: map<nat, int>, m1: map<nat, int>, d: int, maxDepth: int,
                    t00: seq<Token>, t0: seq<Token>, t1: seq<Token>, ignore: set<string>,
                    h: Heap, items: seq<Value>, s: WalkSettings, runs: seq<seq<Token>>, run: seq<Token>, pass: bool)
    requires Extends(m00, m0) && NewKeysWithin(m00, m0, d, maxDepth)
    requires Extends(m0, m1) && NewKeysWithin(m0, m1, d, maxDepth)
    requires Appends(t00, t0, ignore) && Appends(t0, t1, ignore)
    requires t0 == t00 + Flatten(runs) && ElementRuns(h, items, d, s, runs) && |runs| < |items|
    requires pass ==> t1 == t0 + run && ObjectRun(h, items[|runs|], None, d, s, run)
    ensures Extends(m00, m1) && NewKeysWithin(m00, m1, d, maxDepth)
    ensures Appends(t00, t1, ignore)
    ensures pass ==> t1 == t00 + Flatten(runs + [run]) && ElementRuns(h, items, d, s, runs + [run])
  {
    GrowsTrans(m00, m0, m1, d, maxDepth);
    AppendsTrans(t00, t0, t1, ignore);
    if pass {
      FlattenSnoc(runs, run);
    }
  }

  // Every run of the grammar is balanced and opens at most Levels(d) levels
  // of containers: the output never nests deeper than maxDepth + 1 - d.
  lemma {:induction false} ObjectRunBounded(h: Heap, v: Value, name: Option<string>, d: int, s: WalkSettings, run: seq<Token>)
    requires ObjectRun(h, v, name, d, s, run)
    ensures NetDepth(run) == 0 && Nesting(run) <= Levels(d, s.maxDepth)
    decreases s.maxDepth + 1 - d, 5
  {
    if !(v.Null? || d > s.maxDepth || (name.Some? && name.value in s.ignore)) && run != [] {
      ObjectBodyBounded(h, Described(h[v.id], s.format), name, d, s, run);
    }
  }

  lemma {:induction false} ObjectBodyBounded(h: Heap, ps: seq<Property>, name: Option<string>, d: int, s: WalkSettings, run: seq<Token>)
    requires ObjectBody(h, ps, name, d, s, run)
    ensures NetDepth(run) == 0 && Nesting(run) <= Levels(d, s.maxDepth)
    decreases s.maxDepth + 1 - d, 2
  {
    var runs: seq<seq<Token>> :| |runs| == |ps| &&
      run == NameTokens(name) + [StartObject] + Flatten(runs) + [EndObject] &&
      PropertyRuns(h, ps, d + 1, s, runs);
    var k := Levels(d + 1, s.maxDepth);
    forall i | 0 <= i < |runs| ensures NetDepth(runs[i]) == 0 && Nesting(runs[i]) <= k {
      PropertyRunBounded(h, ps[i], d + 1, s, runs[i]);
    }
    FlattenBounded(runs, k);
    BracketedBounded(name, StartObject, Flatten(runs), EndObject, k);
  }

  lemma {:induction false} PropertyRunBounded(h: Heap, p: Property, d: int, s: WalkSettings, run: seq<Token>)
    requires PropertyRun(h, p, d, s, run)
    ensures NetDepth(run) == 0 && Nesting(run) <= Levels(d, s.maxDepth)
    decreases s.maxDepth + 1 - d, 7
  {
    if p.isCollection && p.value.Ref? {
      if ImplementsIList(h[p.value.id].typ) {
        ListRunBounded(h, h[p.value.id].items, Some(p.name), d, s, run);
      }
    } else if p.isObject && p.value.Ref? {
      ObjectRunBounded(h, p.value, Some(p.name), d, s, run);
    } else {
      FlatRun(run);
    }
  }

  lemma {:induction false} ListRunBounded(h: Heap, items: seq<Value>, name: Option<string>, d: int, s: WalkSettings, run: seq<Token>)
    requires ListRun(h, items, name, d, s, run)
    ensures NetDepth(run) == 0 && Nesting(run) <= Levels(d, s.maxDepth)
    decreases s.maxDepth + 1 - d, 6
  {
    if run != [] {
      var runs: seq<seq<Token>> :| |runs| == |items| &&
        run == NameTokens(name) + [StartArray] + Flatten(runs) + [EndArray] &&
        ElementRuns(h, items, d + 1, s, runs);
      var k := Levels(d + 1, s.maxDepth);
      forall j | 0 <= j < |runs| ensures NetDepth(runs[j]) == 0 && Nesting(runs[j]) <= k {
        ObjectRunBounded(h, items[j], None, d + 1, s, runs[j]);
      }
      FlattenBounded(runs, k);
      BracketedBounded(name, StartArray, Flatten(runs), EndArray, k);
    }
  }

  datatype Scan = Clear | Suppressed | NullElement

  class SafeJsonSerializer {
    // object id (the source's hash code) -> depth at which it was registered
    var hashDictionary: map<nat, int>
    var propertiesToIgnore: set<string>
    var maxDepth: int
    var depth: int
    const jw: JsonWriter
    const format: Formatter

    constructor (jw: JsonWriter, format: Formatter)
      ensures this.jw == jw && this.format == format
      ensures hashDictionary == map[] && propertiesToIgnore == {} && maxDepth == 3 && depth == 0
    {
      this.jw := jw;
      this.format := format;
      hashDictionary := map[];
      propertiesToIgnore := {};
      maxDepth := 3;
      depth := 0;
    }

    ghost predicate RegisteredElsewhere(id: nat)
      reads this
    {
      id in hashDictionary && hashDictionary[id] != depth
    }

    // Serializes the root: an ICollection as a list (nothing at all when it
    // is not also an IList), anything else as an object. A null array of
    // names to ignore, or a null root, throws.
    method Serialize(h: Heap, obj: Value, maxDepth: int, propertiesToIgnore: Option<seq<string>>)
      returns (r: Outcome<Failure>)
      requires WellFormed(h) && Valid(h, obj)
      modifies this`maxDepth, this`propertiesToIgnore, this`depth, this`hashDictionary, jw
      ensures this.maxDepth == maxDepth
      ensures propertiesToIgnore.None? || obj.Null? ==> r == Fail(NullReference) && unchanged(jw)
      ensures propertiesToIgnore.Some? ==>
        this.propertiesToIgnore == old(this.propertiesToIgnore) + set p | p in propertiesToIgnore.value
      ensures Extends(old(hashDictionary), hashDictionary)
      ensures Appends(old(jw.tokens), jw.tokens, this.propertiesToIgnore)
      ensures (propertiesToIgnore.Some? && obj.Ref? && ImplementsICollection(h[obj.id].typ) &&
        !ImplementsIList(h[obj.id].typ)) ==> r.Pass? && unchanged(jw)
      ensures (propertiesToIgnore.Some? && obj.Ref? && ImplementsICollection(h[obj.id].typ) &&
        ImplementsIList(h[obj.id].typ) && r.Pass?) ==>
        ListRun(h, h[obj.id].items, None, old(depth), WalkSettings(maxDepth, this.propertiesToIgnore, format),
                jw.tokens[|old(jw.tokens)|..])
      ensures (propertiesToIgnore.Some? && obj.Ref? && !ImplementsICollection(h[obj.id].typ) && r.Pass?) ==>
        ObjectRun(h, obj, None, old(depth), WalkSettings(maxDepth, this.propertiesToIgnore, format),
                  jw.tokens[|old(jw.tokens)|..])
      ensures (propertiesToIgnore.Some? && obj.Ref? && ImplementsICollection(h[obj.id].typ) &&
        ImplementsIList(h[obj.id].typ) && h[obj.id].items != [] && old(depth) <= maxDepth &&
        !old(RegisteredElsewhere(obj.id)) && !old(ScanSuppresses(h[obj.id].items)) && r.Pass?) ==>
        ArrayBody(h, h[obj.id].items, None, old(depth), WalkSettings(maxDepth, this.propertiesToIgnore, format),
                  jw.tokens[|old(jw.tokens)|..])
      ensures (propertiesToIgnore.Some? && obj.Ref? && !ImplementsICollection(h[obj.id].typ) &&
        old(depth) <= maxDepth && !old(RegisteredElsewhere(obj.id))) ==>
        obj.id in hashDictionary &&
        (r.Pass? ==> (FormatsOk(h[obj.id], format) &&
          ObjectBody(h, Described(h[obj.id], format), None, old(depth), WalkSettings(maxDepth, this.propertiesToIgnore, format),
                     jw.tokens[|old(jw.tokens)|..])))
    {
      this.maxDepth := maxDepth;
      if propertiesToIgnore.None? {
        return Fail(NullReference);
      }
      IgnoreNames(propertiesToIgnore.value);
      if obj.Null? {
        return Fail(NullReference);
      }
      r := SerializeRoot(h, obj);
    }

    /** Adds every name of the caller's list to the ignored property names. */
    method IgnoreNames(names: seq<string>)
      modifies this`propertiesToIgnore
      ensures propertiesToIgnore == old(propertiesToIgnore) + set p | p in names
    {
      var i := 0;
      while i < |names|
        invariant 0 <= i <= |names|
        invariant propertiesToIgnore == old(propertiesToIgnore) + set p | p in names[..i]
      {
        propertiesToIgnore := propertiesToIgnore + {names[i]};
        assert names[..i + 1] == names[..i] + [names[i]];
        i := i + 1;
      }
      assert names[..i] == names;
    }

    /** The dispatch on the root object's kind, once the settings are in place. */
    method SerializeRoot(h: Heap, obj: Value) returns (r: Outcome<Failure>)
      requires WellFormed(h) && Valid(h, obj) && obj.Ref?
      modifies this`depth, this`hashDictionary, jw
      ensures Extends(old(hashDictionary), hashDictionary)
      ensures Appends(old(jw.tokens), jw.tokens, propertiesToIgnore)
      ensures ImplementsICollection(h[obj.id].typ) && !ImplementsIList(h[obj.id].typ) ==> r.Pass? && unchanged(jw)
      ensures ImplementsICollection(h[obj.id].typ) && ImplementsIList(h[obj.id].typ) && r.Pass? ==>
        ListRun(h, h[obj.id].items, None, old(depth), WalkSettings(maxDepth, propertiesToIgnore, format),
                jw.tokens[|old(jw.tokens)|..])
      ensures !ImplementsICollection(h[obj.id].typ) && r.Pass? ==>
        ObjectRun(h, obj, None, old(depth), WalkSettings(maxDepth, propertiesToIgnore, format),
                  jw.tokens[|old(jw.tokens)|..])
      ensures (ImplementsICollection(h[obj.id].typ) && ImplementsIList(h[obj.id].typ) &&
               !old(ListSkipped(h[obj.id].items, obj.id, None) || ScanSuppresses(h[obj.id].items)) && r.Pass?) ==>
        ArrayBody(h, h[obj.id].items, None, old(depth), WalkSettings(maxDepth, propertiesToIgnore, format),
                  jw.tokens[|old(jw.tokens)|..])
      ensures !ImplementsICollection(h[obj.id].typ) && !old(ObjectSkipped(obj, None)) ==>
        obj.id in hashDictionary &&
        (r.Pass? ==> (FormatsOk(h[obj.id], format) &&
          ObjectBody(h, Described(h[obj.id], format), None, old(depth), WalkSettings(maxDepth, propertiesToIgnore, format),
                     jw.tokens[|old(jw.tokens)|..])))
    {
      var n := h[obj.id];
      if ImplementsICollection(n.typ) {
        if ImplementsIList(n.typ) {
          forall j | 0 <= j < |n.items| ensures Valid(h, n.items[j]) {
            ItemValid(h, n, j);
          }
          r := SerializeList(h, n.items, obj.id, None);
        } else {
          r := Pass;  // `obj as IList` gives null
        }
      } else {
        r := SerializeObject(h, obj, None);
      }
    }

    ghost predicate ListSkipped(items: seq<Value>, hashCode: nat, name: Option<string>)
      reads this
    {
      items == [] || depth > maxDepth || (name.Some? && name.value in propertiesToIgnore) ||
      RegisteredElsewhere(hashCode)
    }

    // The element scan before a list is written: the first null element
    // throws, and the first element registered at another depth suppresses
    // the list.
    ghost predicate ScanFails(items: seq<Value>)
      reads this
    {
      exists k :: 0 <= k < |items| && items[k].Null? &&
        forall j :: 0 <= j < k ==> items[j].Ref? && !RegisteredElsewhere(items[j].id)
    }

    ghost predicate ScanSuppresses(items: seq<Value>)
      reads this
    {
      exists k :: 0 <= k < |items| && items[k].Ref? && RegisteredElsewhere(items[k].id) &&
        forall j :: 0 <= j < k ==> items[j].Ref?
    }

    // The outcome of the element scan.
    method ScanElements(items: seq<Value>) returns (s: Scan)
      ensures s == NullElement <==> ScanFails(items)
      ensures s == Suppressed <==> ScanSuppresses(items)
      ensures s == Clear ==> forall j :: 0 <= j < |items| ==> items[j].Ref? && !RegisteredElsewhere(items[j].id)
    {
      var i := 0;
      while i < |items|
        invariant 0 <= i <= |items|
        invariant forall j :: 0 <= j < i ==> items[j].Ref? && !RegisteredElsewhere(items[j].id)
      {
        if items[i].Null? {
          return NullElement;
        }
        if items[i].id in hashDictionary && hashDictionary[items[i].id] != depth {
          return Suppressed;
        }
        i := i + 1;
      }
      return Clear;
    }

    // A list is written as an array one level deeper, each element as an
    // object, unless it is skipped or the scan suppresses it. The list itself
    // is never registered.
    method SerializeList(h: Heap, items: seq<Value>, hashCode: nat, name: Option<string>)
      returns (r: Outcome<Failure>)
      requires WellFormed(h) && forall j :: 0 <= j < |items| ==> Valid(h, items[j])
      requires name.Some? ==> jw.AwaitingName()
      modifies this`depth, this`hashDictionary, jw
      decreases maxDepth + 1 - depth, 3
      ensures Extends(old(hashDictionary), hashDictionary)
      ensures NewKeysWithin(old(hashDictionary), hashDictionary, old(depth) + 1, maxDepth)
      ensures Appends(old(jw.tokens), jw.tokens, propertiesToIgnore)
      ensures old(ListSkipped(items, hashCode, name)) || old(ScanSuppresses(items)) ==>
        r.Pass? && unchanged(jw) && hashDictionary == old(hashDictionary) && depth == old(depth)
      ensures !old(ListSkipped(items, hashCode, name)) && old(ScanFails(items)) ==>
        r == Fail(NullReference) && unchanged(jw)
      ensures !old(ListSkipped(items, hashCode, name)) && r.Pass? ==> (
        depth == old(depth) && jw.open == old(jw.open) &&
        (if jw.tokens == old(jw.tokens) then jw.afterName == old(jw.afterName) else !jw.afterName))
      ensures !old(ListSkipped(items, hashCode, name) || ScanSuppresses(items)) && r.Pass? ==>
        ArrayBody(h, items, name, old(depth), WalkSettings(maxDepth, propertiesToIgnore, format), jw.tokens[|old(jw.tokens)|..])
      ensures r.Pass? ==> ListRun(h, items, name, old(depth), WalkSettings(maxDepth, propertiesToIgnore, format), jw.tokens[|old(jw.tokens)|..])
    {
      if items == [] || depth > maxDepth || (name.Some? && name.value in propertiesToIgnore) {
        return Pass;
      }
      if hashCode in hashDictionary && hashDictionary[hashCode] != depth {
        return Pass;
      }
      var scan := ScanElements(items);
      if scan == NullElement {
        return Fail(NullReference);
      } else if scan == Suppressed {
        return Pass;
      }
      r := WriteArray(h, items, name);
    }

    // depth++, the property name, [, the elements, ], depth--.
    method WriteArray(h: Heap, items: seq<Value>, name: Option<string>) returns (r: Outcome<Failure>)
      requires WellFormed(h) && forall j :: 0 <= j < |items| ==> items[j].Ref? && items[j].id in h
      requires name.Some? ==> jw.AwaitingName() && name.value !in propertiesToIgnore
      requires depth <= maxDepth
      modifies this`depth, this`hashDictionary, jw
      decreases maxDepth + 1 - depth, 0
      ensures Extends(old(hashDictionary), hashDictionary)
      ensures NewKeysWithin(old(hashDictionary), hashDictionary, old(depth) + 1, maxDepth)
      ensures Appends(old(jw.tokens), jw.tokens, propertiesToIgnore)
      ensures r.Pass? ==> (depth == old(depth) && jw.open == old(jw.open) && !jw.afterName &&
        ArrayBody(h, items, name, old(depth), WalkSettings(maxDepth, propertiesToIgnore, format), jw.tokens[|old(jw.tokens)|..]))
    {
      ghost var t0 := jw.tokens;
      depth := depth + 1;
      var ok := OpenContainer(jw, name, InArray, propertiesToIgnore);
      if !ok {
        return Fail(WriterRejected(StartArray));
      }
      ghost var t1 := jw.tokens;
      ghost var runs;
      r, runs := WriteElements(h, items);
      if r.Fail? {
        AppendsTrans(t0, t1, jw.tokens, propertiesToIgnore);
        return;
      }
      ghost var t2 := jw.tokens;
      CloseContainer(jw, InArray, propertiesToIgnore);
      depth := depth - 1;
      Closed(t0, t1, t2, jw.tokens, name, StartArray, Flatten(runs), EndArray, propertiesToIgnore);
      ArrayBodyIntro(h, items, name, old(depth), WalkSettings(maxDepth, propertiesToIgnore, format), runs);
    }

    // The elements of a list, inside its array, each as an object.
    method WriteElements(h: Heap, items: seq<Value>) returns (r: Outcome<Failure>, ghost runs: seq<seq<Token>>)
      requires WellFormed(h) && forall j :: 0 <= j < |items| ==> items[j].Ref? && items[j].id in h
      requires jw.open != [] && jw.open[|jw.open| - 1] == InArray && !jw.afterName
      modifies this`depth, this`hashDictionary, jw
      decreases maxDepth + 1 - depth, 6
      ensures Extends(old(hashDictionary), hashDictionary)
      ensures NewKeysWithin(old(hashDictionary), hashDictionary, old(depth), maxDepth)
      ensures Appends(old(jw.tokens), jw.tokens, propertiesToIgnore)
      ensures r.Pass? ==> depth == old(depth) && jw.open == old(jw.open) && !jw.afterName
      ensures r.Pass? ==> (|runs| == |items| && jw.tokens == old(jw.tokens) + Flatten(runs) &&
        ElementRuns(h, items, old(depth), WalkSettings(maxDepth, propertiesToIgnore, format), runs))
    {
      runs := [];
      ghost var ws := WalkSettings(maxDepth, propertiesToIgnore, format);
      var i := 0;
      while i < |items|
        invariant 0 <= i <= |items| && |runs| == i
        invariant depth == old(depth) && jw.open == old(jw.open) && !jw.afterName
        invariant Extends(old(hashDictionary), hashDictionary)
        invariant NewKeysWithin(old(hashDictionary), hashDictionary, old(depth), maxDepth)
        invariant Appends(old(jw.tokens), jw.tokens, propertiesToIgnore)
        invariant jw.tokens == old(jw.tokens) + Flatten(runs)
        invariant ws == WalkSettings(maxDepth, propertiesToIgnore, format)
        invariant ElementRuns(h, items, old(depth), ws, runs)
      {
        ghost var t0 := jw.tokens;
        ghost var m0 := hashDictionary;
        ghost var run;
        r, run := WriteElement(h, items[i]);
        ElementStep(old(hashDictionary), m0, hashDictionary, old(depth), maxDepth,
                    old(jw.tokens), t0, jw.tokens, propertiesToIgnore, h, items, ws, runs, run, r.Pass?);
        if r.Fail? {
          return;
        }
        runs := runs + [run];
        i := i + 1;
      }
      r := Pass;
    }

    // One element: an object without a name.
    method WriteElement(h: Heap, v: Value) returns (r: Outcome<Failure>, ghost run: seq<Token>)
      requires WellFormed(h) && v.Ref? && v.id in h
      requires jw.open != [] && jw.open[|jw.open| - 1] == InArray && !jw.afterName
      modifies this`depth, this`hashDictionary, jw
      decreases maxDepth + 1 - depth, 5
      ensures Extends(old(hashDictionary), hashDictionary)
      ensures NewKeysWithin(old(hashDictionary), hashDictionary, old(depth), maxDepth)
      ensures Appends(old(jw.tokens), jw.tokens, propertiesToIgnore)
      ensures r.Pass? ==> depth == old(depth) && jw.open == old(jw.open) && !jw.afterName
      ensures r.Pass? ==> (jw.tokens == old(jw.tokens) + run &&
        ObjectRun(h, v, None, old(depth), WalkSettings(maxDepth, propertiesToIgnore, format), run))
    {
      r := SerializeObject(h, v, None);
      run := jw.tokens[|old(jw.tokens)|..];
    }

    ghost predicate ObjectSkipped(v: Value, name: Option<string>)
      reads this
    {
      v.Null? || depth > maxDepth || (name.Some? && name.value in propertiesToIgnore) ||
      RegisteredElsewhere(v.id)
    }

    // An object is written one level deeper as {...}, after registering it at
    // the current depth if it was not registered yet; nothing is written when
    // it is null, too deep, ignored, or registered at a different depth.
    method SerializeObject(h: Heap, v: Value, name: Option<string>) returns (r: Outcome<Failure>)
      requires WellFormed(h) && Valid(h, v)
      requires name.Some? ==> jw.AwaitingName()
      modifies this`depth, this`hashDictionary, jw
      decreases maxDepth + 1 - depth, 3
      ensures Extends(old(hashDictionary), hashDictionary)
      ensures NewKeysWithin(old(hashDictionary), hashDictionary, old(depth), maxDepth)
      ensures Appends(old(jw.tokens), jw.tokens, propertiesToIgnore)
      ensures r.Pass? ==> (depth == old(depth) && jw.open == old(jw.open) &&
        (if jw.tokens == old(jw.tokens) then jw.afterName == old(jw.afterName) else !jw.afterName))
      ensures old(ObjectSkipped(v, name)) ==>
        r.Pass? && unchanged(jw) && hashDictionary == old(hashDictionary) && depth == old(depth)
      ensures !old(ObjectSkipped(v, name)) ==> (
        v.id in hashDictionary && (v.id !in old(hashDictionary) ==> hashDictionary[v.id] == old(depth)) &&
        (r.Pass? ==> (FormatsOk(h[v.id], format) &&
          ObjectBody(h, Described(h[v.id], format), name, old(depth), WalkSettings(maxDepth, propertiesToIgnore, format),
                     jw.tokens[|old(jw.tokens)|..]))))
      ensures !old(ObjectSkipped(v, name)) && (name.Some? || old(jw.AcceptsValue())) && !FormatsOk(h[v.id], format) ==>
        r.Fail? && r.error.FormatError?
      ensures r.Pass? ==> ObjectRun(h, v, name, old(depth), WalkSettings(maxDepth, propertiesToIgnore, format), jw.tokens[|old(jw.tokens)|..])
    {
      if v.Null? || depth > maxDepth || (name.Some? && name.value in propertiesToIgnore) {
        return Pass;
      }
      if v.id in hashDictionary && hashDictionary[v.id] != depth {
        return Pass;
      }
      if v.id !in hashDictionary {
        hashDictionary := hashDictionary[v.id := depth];
      }
      r := WriteObject(h, h[v.id], name);
    }

    // depth++, the property name, {, the properties (listed only now, so a
    // bad format throws after { is written), }, depth--.
    method WriteObject(h: Heap, n: Node, name: Option<string>) returns (r: Outcome<Failure>)
      requires WellFormed(h) && NodeClosed(h, n)
      requires name.Some? ==> jw.AwaitingName() && name.value !in propertiesToIgnore
      requires depth <= maxDepth
      modifies this`depth, this`hashDictionary, jw
      decreases maxDepth + 1 - depth, 0
      ensures Extends(old(hashDictionary), hashDictionary)
      ensures NewKeysWithin(old(hashDictionary), hashDictionary, old(depth) + 1, maxDepth)
      ensures Appends(old(jw.tokens), jw.tokens, propertiesToIgnore)
      ensures r.Pass? ==> (depth == old(depth) && jw.open == old(jw.open) && !jw.afterName && FormatsOk(n, format) &&
        ObjectBody(h, Described(n, format), name, old(depth), WalkSettings(maxDepth, propertiesToIgnore, format), jw.tokens[|old(jw.tokens)|..]))
      ensures (name.Some? || old(jw.AcceptsValue())) && !FormatsOk(n, format) ==> r.Fail? && r.error.FormatError?
    {
      ghost var t0 := jw.tokens;
      depth := depth + 1;
      var ok := OpenContainer(jw, name, InObject, propertiesToIgnore);
      if !ok {
        return Fail(WriterRejected(StartObject));
      }
      ghost var t1 := jw.tokens;
      ghost var runs;
      r, runs := WriteDescribed(h, n);
      if r.Fail? {
        AppendsTrans(t0, t1, jw.tokens, propertiesToIgnore);
        return;
      }
      ghost var t2 := jw.tokens;
      CloseContainer(jw, InObject, propertiesToIgnore);
      depth := depth - 1;
      Closed(t0, t1, t2, jw.tokens, name, StartObject, Flatten(runs), EndObject, propertiesToIgnore);
      ObjectBodyIntro(h, Described(n, format), name, old(depth), WalkSettings(maxDepth, propertiesToIgnore, format), runs);
    }

    // The properties of an object whose { is out: listed through the
    // Properties constructor, which throws on the first bad format, then
    // written in order.
    method WriteDescribed(h: Heap, n: Node) returns (r: Outcome<Failure>, ghost runs: seq<seq<Token>>)
      requires WellFormed(h) && NodeClosed(h, n)
      requires jw.AwaitingName()
      modifies this`depth, this`hashDictionary, jw
      decreases maxDepth + 1 - depth, 7
      ensures Extends(old(hashDictionary), hashDictionary)
      ensures NewKeysWithin(old(hashDictionary), hashDictionary, old(depth), maxDepth)
      ensures Appends(old(jw.tokens), jw.tokens, propertiesToIgnore)
      ensures !FormatsOk(n, format) ==> r.Fail? && r.error.FormatError?
      ensures r.Pass? ==> (depth == old(depth) && jw.open == old(jw.open) && !jw.afterName && FormatsOk(n, format) &&
        |runs| == |Described(n, format)| && jw.tokens == old(jw.tokens) + Flatten(runs) &&
        PropertyRuns(h, Described(n, format), old(depth), WalkSettings(maxDepth, propertiesToIgnore, format), runs))
    {
      var res := Properties(n, format);
      if res.Failure? {
        r, runs := Fail(res.error), [];
        return;
      }
      var props := res.value;
      DescribedValid(h, n, format);
      r, runs := WriteProperties(h, props);
    }

    method WriteProperties(h: Heap, props: seq<Property>) returns (r: Outcome<Failure>, ghost runs: seq<seq<Token>>)
      requires WellFormed(h) && forall i :: 0 <= i < |props| ==> Valid(h, props[i].value)
      requires jw.AwaitingName()
      modifies this`depth, this`hashDictionary, jw
      decreases maxDepth + 1 - depth, 6
      ensures Extends(old(hashDictionary), hashDictionary)
      ensures NewKeysWithin(old(hashDictionary), hashDictionary, old(depth), maxDepth)
      ensures Appends(old(jw.tokens), jw.tokens, propertiesToIgnore)
      ensures r.Pass? ==> depth == old(depth) && jw.open == old(jw.open) && !jw.afterName
      ensures r.Pass? ==> (|runs| == |props| && jw.tokens == old(jw.tokens) + Flatten(runs) &&
        PropertyRuns(h, props, old(depth), WalkSettings(maxDepth, propertiesToIgnore, format), runs))
    {
      runs := [];
      ghost var ws := WalkSettings(maxDepth, propertiesToIgnore, format);
      var i := 0;
      while i < |props|
        invariant 0 <= i <= |props| && |runs| == i
        invariant depth == old(depth) && jw.open == old(jw.open) && !jw.afterName
        invariant Extends(old(hashDictionary), hashDictionary)
        invariant NewKeysWithin(old(hashDictionary), hashDictionary, old(depth), maxDepth)
        invariant Appends(old(jw.tokens), jw.tokens, propertiesToIgnore)
        invariant jw.tokens == old(jw.tokens) + Flatten(runs)
        invariant ws == WalkSettings(maxDepth, propertiesToIgnore, format)
        invariant PropertyRuns(h, props, old(depth), ws, runs)
      {
        ghost var t0 := jw.tokens;
        ghost var m0 := hashDictionary;
        ghost var run;
        r, run := WriteProperty(h, props[i]);
        PropertyStep(old(hashDictionary), m0, hashDictionary, old(depth), maxDepth,
                     old(jw.tokens), t0, jw.tokens, propertiesToIgnore, h, props, ws, runs, run, r.Pass?);
        if r.Fail? {
          return;
        }
        runs := runs + [run];
        i := i + 1;
      }
      r := Pass;
    }

    // One property: a List<> recurses as a list and a user object as an
    // object; a formatted value is written as its text; anything else that
    // is neither (arrays included) through WriteValue, unless ignored.
    method WriteProperty(h: Heap, p: Property) returns (r: Outcome<Failure>, ghost run: seq<Token>)
      requires WellFormed(h) && Valid(h, p.value)
      requires jw.AwaitingName()
      modifies this`depth, this`hashDictionary, jw
      decreases maxDepth + 1 - depth, 5
      ensures Extends(old(hashDictionary), hashDictionary)
      ensures NewKeysWithin(old(hashDictionary), hashDictionary, old(depth), maxDepth)
      ensures Appends(old(jw.tokens), jw.tokens, propertiesToIgnore)
      ensures r.Pass? ==> depth == old(depth) && jw.open == old(jw.open) && !jw.afterName
      ensures p.name in propertiesToIgnore ==> r.Pass? && unchanged(jw)
      ensures !(p.isCollection || p.isObject) && p.name !in propertiesToIgnore ==>
        r.Pass? == (p.formatted.Some? || p.value.Null? || JsonNetWritable(h[p.value.id].typ))
      ensures r.Pass? ==> (jw.tokens == old(jw.tokens) + run &&
        PropertyRun(h, p, old(depth), WalkSettings(maxDepth, propertiesToIgnore, format), run))
    {
      if p.isCollection && p.value.Ref? {
        r, run := WriteListProperty(h, p);
        return;
      } else if p.isObject && p.value.Ref? {
        r := SerializeObject(h, p.value, Some(p.name));
      } else if p.formatted.Some? && p.name !in propertiesToIgnore {
        WriteNamedScalar(jw, p.name, StringValue(p.formatted.value), propertiesToIgnore);
        r := Pass;
      } else if !p.isCollection && !p.isObject && p.name !in propertiesToIgnore {
        if p.value.Ref? && !JsonNetWritable(h[p.value.id].typ) {
          // the name is already out when the value is refused
          AppendsToken(jw.tokens, PropertyName(p.name), propertiesToIgnore);
          var ok := jw.WritePropertyName(Some(p.name));
          assert ok;
          r, run := Fail(ValueRejected(p.name)), [];
          return;
        }
        WriteNamedScalar(jw, p.name, ValueOf(p.value), propertiesToIgnore);
        r := Pass;
      } else {
        r := Pass;
      }
      run := jw.tokens[|old(jw.tokens)|..];
    }

    // A List<> property: the value `as IList`, serialized as a list under the
    // property's name; a value that is not an IList writes nothing.
    method WriteListProperty(h: Heap, p: Property) returns (r: Outcome<Failure>, ghost run: seq<Token>)
      requires WellFormed(h) && Valid(h, p.value) && p.isCollection && p.value.Ref?
      requires jw.AwaitingName()
      modifies this`depth, this`hashDictionary, jw
      decreases maxDepth + 1 - depth, 4
      ensures Extends(old(hashDictionary), hashDictionary)
      ensures NewKeysWithin(old(hashDictionary), hashDictionary, old(depth), maxDepth)
      ensures Appends(old(jw.tokens), jw.tokens, propertiesToIgnore)
      ensures r.Pass? ==> depth == old(depth) && jw.open == old(jw.open) && !jw.afterName
      ensures p.name in propertiesToIgnore ==> r.Pass? && unchanged(jw)
      ensures !ImplementsIList(h[p.value.id].typ) ==> r.Pass? && unchanged(jw)
      ensures (ImplementsIList(h[p.value.id].typ) &&
               !old(ListSkipped(h[p.value.id].items, p.value.id, Some(p.name)) || ScanSuppresses(h[p.value.id].items)) && r.Pass?) ==>
        ArrayBody(h, h[p.value.id].items, Some(p.name), old(depth), WalkSettings(maxDepth, propertiesToIgnore, format), run)
      ensures r.Pass? ==> (jw.tokens == old(jw.tokens) + run &&
        PropertyRun(h, p, old(depth), WalkSettings(maxDepth, propertiesToIgnore, format), run))
    {
      var n := h[p.value.id];
      if ImplementsIList(n.typ) {
        forall j | 0 <= j < |n.items| ensures Valid(h, n.items[j]) {
          ItemValid(h, n, j);
        }
        r := SerializeList(h, n.items, p.value.id, Some(p.name));
      } else {
        r := Pass;  // `as IList` gives null: nothing is written
      }
      run := jw.tokens[|old(jw.tokens)|..];
    }
  }

  // The converter: the settings it passes to a fresh serializer on every
  // WriteJson call.
  class SafeJsonConverter {
    var maxDepth: int
    var propertiesToIgnore: Option<seq<string>>   // None: the array is null
    const format: Formatter

    constructor WithSettings(maxDepth: int, propertiesToIgnore: Option<seq<string>>, format: Formatter)
      ensures this.maxDepth == maxDepth && this.propertiesToIgnore == propertiesToIgnore && this.format == format
    {
      this.maxDepth := maxDepth;
      this.propertiesToIgnore := propertiesToIgnore;
      this.format := format;
    }

    // PropertiesToIgnore is left unset (null), so WriteJson throws.
    constructor WithMaxDepth(maxDepth: int, format: Formatter)
      ensures this.maxDepth == maxDepth && propertiesToIgnore.None? && this.format == format
    {
      this.maxDepth := maxDepth;
      this.propertiesToIgnore := None;
      this.format := format;
    }

    constructor (format: Formatter)
      ensures maxDepth == 99 && propertiesToIgnore == Some([]) && this.format == format
    {
      maxDepth := 99;
      propertiesToIgnore := Some([]);
      this.format := format;
    }

    function CanRead(): (b: bool)
      ensures b
    {
      true
    }

    function CanConvert(objectType: TypeDesc): (b: bool)
      ensures b
    {
      true
    }

    // A fresh serializer on the given writer, with this converter's settings:
    // the root is written at depth 0 with an empty dictionary, so whatever it
    // writes is the root case of the grammar at this converter's depth and
    // names.
    method WriteJson(jw: JsonWriter, h: Heap, value: Value) returns (r: Outcome<Failure>)
      requires WellFormed(h) && Valid(h, value)
      modifies jw
      ensures propertiesToIgnore.None? || value.Null? ==> r == Fail(NullReference) && unchanged(jw)
      ensures propertiesToIgnore.Some? ==>
        Appends(old(jw.tokens), jw.tokens, set p | p in propertiesToIgnore.value)
      ensures (propertiesToIgnore.Some? && value.Ref? && ImplementsICollection(h[value.id].typ) &&
        !ImplementsIList(h[value.id].typ)) ==> r.Pass? && unchanged(jw)
      ensures (propertiesToIgnore.Some? && value.Ref? && ImplementsICollection(h[value.id].typ) &&
        ImplementsIList(h[value.id].typ) && r.Pass?) ==>
        ListRun(h, h[value.id].items, None, 0, Walk(), jw.tokens[|old(jw.tokens)|..])
      ensures (propertiesToIgnore.Some? && value.Ref? && ImplementsICollection(h[value.id].typ) &&
        ImplementsIList(h[value.id].typ) && h[value.id].items != [] && 0 <= maxDepth && r.Pass?) ==>
        ArrayBody(h, h[value.id].items, None, 0, Walk(), jw.tokens[|old(jw.tokens)|..])
      ensures (propertiesToIgnore.Some? && value.Ref? && !ImplementsICollection(h[value.id].typ) && r.Pass?) ==>
        ObjectRun(h, value, None, 0, Walk(), jw.tokens[|old(jw.tokens)|..])
      ensures (propertiesToIgnore.Some? && value.Ref? && !ImplementsICollection(h[value.id].typ) &&
        0 <= maxDepth && r.Pass?) ==>
        FormatsOk(h[value.id], format) &&
        ObjectBody(h, Described(h[value.id], format), None, 0, Walk(), jw.tokens[|old(jw.tokens)|..])
    {
      var sjs := new SafeJsonSerializer(jw, format);
      assert forall id :: !sjs.RegisteredElsewhere(id);
      r := sjs.Serialize(h, value, maxDepth, propertiesToIgnore);
      if propertiesToIgnore.Some? {
        assert sjs.propertiesToIgnore == set p | p in propertiesToIgnore.value;
      }
    }

    // The walk settings of this converter's serializer: its depth, its names
    // to ignore (none when unset) and the formatter.
    ghost function Walk(): WalkSettings
      reads this
    {
      WalkSettings(maxDepth, if propertiesToIgnore.Some? then set p | p in propertiesToIgnore.value else {}, format)
    }
  }
}
