// The Json.NET converter of EDennis.JsonUtils (SafeJsonConverter.cs): its
// settings and their defaults, and the delegation of WriteJson to the
// depth-keyed serializer. The modulo rule of the older serializer that the
// file keeps in comments is modelled on its own, as written and corrected.
module JsonUtilsConverter {
  import opened Wrappers
  import opened ObjectGraph
  import opened JsonTokens
  import D = DepthKeyedSerializer

  const DEFAULT_MAXDEPTH: int := 99

  datatype ConverterFailure = NotImplemented

  class SafeJsonConverter {
    var maxDepth: int
    var propertiesToIgnore: Option<seq<string>>          // None: null
    var moduloTransform: Option<map<string, nat>>        // None: null; property name -> modulus
    const format: Formatter

    constructor WithDepthAndIgnore(maxDepth: int, propertiesToIgnore: Option<seq<string>>, format: Formatter)
      ensures this.maxDepth == maxDepth && this.propertiesToIgnore == propertiesToIgnore
      ensures moduloTransform.None? && this.format == format
    {
      this.maxDepth := maxDepth;
      this.propertiesToIgnore := propertiesToIgnore;
      moduloTransform := None;
      this.format := format;
    }

    constructor WithDepthIgnoreAndModulo(maxDepth: int, propertiesToIgnore: Option<seq<string>>,
                                         moduloTransform: Option<map<string, nat>>, format: Formatter)
      ensures this.maxDepth == maxDepth && this.propertiesToIgnore == propertiesToIgnore
      ensures this.moduloTransform == moduloTransform && this.format == format
    {
      this.maxDepth := maxDepth;
      this.propertiesToIgnore := propertiesToIgnore;
      this.moduloTransform := moduloTransform;
      this.format := format;
    }

    constructor WithDepth(maxDepth: int, format: Formatter)
      ensures this.maxDepth == maxDepth && propertiesToIgnore == Some([])
      ensures moduloTransform.None? && this.format == format
    {
      this.maxDepth := maxDepth;
      propertiesToIgnore := Some([]);
      moduloTransform := None;
      this.format := format;
    }

    constructor WithIgnore(propertiesToIgnore: Option<seq<string>>, format: Formatter)
      ensures maxDepth == DEFAULT_MAXDEPTH && this.propertiesToIgnore == propertiesToIgnore
      ensures moduloTransform == Some(map[]) && this.format == format
    {
      this.propertiesToIgnore := propertiesToIgnore;
      moduloTransform := Some(map[]);
      maxDepth := DEFAULT_MAXDEPTH;
      this.format := format;
    }

    constructor WithModulo(moduloTransform: Option<map<string, nat>>, format: Formatter)
      ensures maxDepth == DEFAULT_MAXDEPTH && propertiesToIgnore == Some([])
      ensures this.moduloTransform == moduloTransform && this.format == format
    {
      propertiesToIgnore := Some([]);
      this.moduloTransform := moduloTransform;
      maxDepth := DEFAULT_MAXDEPTH;
      this.format := format;
    }

    constructor WithIgnoreAndModulo(propertiesToIgnore: Option<seq<string>>, moduloTransform: Option<map<string, nat>>,
                                    format: Formatter)
      ensures maxDepth == DEFAULT_MAXDEPTH && this.propertiesToIgnore == propertiesToIgnore
      ensures this.moduloTransform == moduloTransform && this.format == format
    {
      this.propertiesToIgnore := propertiesToIgnore;
      this.moduloTransform := moduloTransform;
      maxDepth := DEFAULT_MAXDEPTH;
      this.format := format;
    }

    constructor (format: Formatter)
      ensures maxDepth == 99 && propertiesToIgnore == Some([]) && moduloTransform == Some(map[])
      ensures this.format == format
    {
      maxDepth := 99;
      propertiesToIgnore := Some([]);
      moduloTransform := Some(map[]);
      this.format := format;
    }

    // A fresh depth-keyed serializer on the given writer, with this
    // converter's depth and names to ignore.
    // The root is written at depth 1 with an empty dictionary, so whatever
    // it writes is the root case of the grammar at this converter's depth and
    // names.
    method WriteJson(jw: JsonWriter, h: Heap, value: Value, fromObjectFails: D.FromObjectFails) returns (r: Outcome<D.Failure>)
      requires WellFormed(h) && Valid(h, value)
      modifies jw
      ensures propertiesToIgnore.None? || value.Null? ==> r == Fail(D.NullReference) && jw.tokens == old(jw.tokens)
      ensures propertiesToIgnore.Some? ==>
        Appends(old(jw.tokens), jw.tokens, set p | p in propertiesToIgnore.value)
      ensures (propertiesToIgnore.Some? && value.Ref? &&
               (ImplementsIDictionary(h[value.id].typ) ||
                (ImplementsIEnumerable(h[value.id].typ) && !CastsToObjectEnumerable(h[value.id].typ)))) ==>
        (if fromObjectFails(value) then r == Fail(D.FromObjectFailed) && jw.tokens == old(jw.tokens)
         else r.Pass? == old(jw.AcceptsValue()) && (r.Pass? ==> jw.tokens == old(jw.tokens) + [RawValue(value)]))
      ensures (propertiesToIgnore.Some? && value.Ref? && !ImplementsIDictionary(h[value.id].typ) &&
               CastsToObjectEnumerable(h[value.id].typ) && r.Pass?) ==>
        D.ListRun(h, h[value.id].items, None, 1, Walk(), jw.tokens[|old(jw.tokens)|..]) ||
        (|jw.tokens| > |old(jw.tokens)| && jw.tokens[|jw.tokens| - 1] == RawValue(value))
      ensures (propertiesToIgnore.Some? && value.Ref? && !ImplementsIDictionary(h[value.id].typ) &&
               CastsToObjectEnumerable(h[value.id].typ) && h[value.id].items != [] && 1 <= maxDepth && r.Pass?) ==>
        D.ArrayBody(h, h[value.id].items, None, 1, Walk(), jw.tokens[|old(jw.tokens)|..]) ||
        (|jw.tokens| > |old(jw.tokens)| && jw.tokens[|jw.tokens| - 1] == RawValue(value))
      ensures propertiesToIgnore.Some? && value.Ref? && !ImplementsIEnumerable(h[value.id].typ) && r.Pass? ==>
        D.ObjectRun(h, value, None, 1, Walk(), jw.tokens[|old(jw.tokens)|..])
      ensures (propertiesToIgnore.Some? && value.Ref? && !ImplementsIEnumerable(h[value.id].typ) &&
               1 <= maxDepth && !D.PrimitiveLike(h[value.id].typ) && FormatsOk(h[value.id], format) &&
               h[value.id].typ.simpleValue.None? && r.Pass?) ==>
        D.ObjectBody(h, D.Described(h[value.id], format), None, 1, Walk(), jw.tokens[|old(jw.tokens)|..])
    {
      var sjs := new D.SafeJsonSerializer(jw, format);
      assert forall id :: !sjs.RegisteredElsewhere(id);
      r := sjs.Serialize(h, value, maxDepth, propertiesToIgnore, fromObjectFails);
      if propertiesToIgnore.Some? {
        assert sjs.propertiesToIgnore == set p | p in propertiesToIgnore.value;
      }
    }

    // The walk settings of this converter's serializer: its depth, its names
    // to ignore (none when unset) and the formatter.
    ghost function Walk(): WalkSettings
      reads this
    {
      WalkSettings(maxDepth, if propertiesToIgnore.Some? then set p | p in propertiesToIgnore.value else {}, format)
    }

    method ReadJson() returns (r: Result<Value, ConverterFailure>)
      ensures r == Failure(NotImplemented)
    {
      r := Failure(NotImplemented);
    }

    function CanRead(): (b: bool)
      ensures !b
    {
      false
    }

    function CanConvert(objectType: TypeDesc): (b: bool)
      ensures b
    {
      true
    }
  }
}

// The modulo rule for integral property values (kept as a comment in the
// converter file): the value of a configured property is written as
// value % modulus.
module ModuloRule {
  import opened Wrappers
  import opened ObjectGraph

  // The exceptions the rule can raise.
  datatype ModuloError =
    | NullKey        // Dictionary.ContainsKey(null) or the indexer with null: ArgumentNullException
    | KeyNotFound    // the indexer with an absent name: KeyNotFoundException
    | Overflow       // Convert.ToUInt64 of a negative value: OverflowException
    | DivideByZero   // % 0: DivideByZeroException

  predicate IsModuloType(p: Prim)
  {
    p in {Int32, Int64, UInt32}
  }

  // The ulong % modulus branch: the conversion, the lookup, the remainder,
  // in that order.
  function ApplyModulo(modulo: map<string, nat>, name: Option<string>, value: int): (r: Result<nat, ModuloError>)
    ensures r.Success? ==> name.Some? && name.value in modulo && value >= 0 && r.value < modulo[name.value]
    ensures r.Success? && value < modulo[name.value] ==> r.value == value
  {
    if value < 0 then Failure(Overflow)
    else if name.None? then Failure(NullKey)
    else if name.value !in modulo then Failure(KeyNotFound)
    else if modulo[name.value] == 0 then Failure(DivideByZero)
    else Success(value % modulo[name.value])
  }

  // As written: `ContainsKey(name) && (int || long || uint) || ulong`, that
  // is `(ContainsKey(name) && (int || long || uint)) || ulong`. ContainsKey is
  // evaluated first. Result: None for the plain ToString branch, Some of the
  // remainder otherwise.
  function ModuloAsWritten(modulo: map<string, nat>, name: Option<string>, p: Prim, value: int)
    : (r: Result<Option<nat>, ModuloError>)
    ensures name.None? ==> r == Failure(NullKey)
  {
    if name.None? then Failure(NullKey)
    else if (name.value in modulo && IsModuloType(p)) || p == UInt64 then
      match ApplyModulo(modulo, name, value)
      case Success(m) => Success(Some(m))
      case Failure(e) => Failure(e)
    else Success(None)
  }

  // The precedence lets every ulong through: a ulong property that is not
  // configured makes the indexer throw.
  lemma ModuloAsWrittenRejectsUnconfiguredULong()
    ensures ModuloAsWritten(map["Id" := 1000], Some("Count"), UInt64, 5) == Failure(KeyNotFound)
  {
  }

  // Intended: `ContainsKey(name) && (int || long || uint || ulong)`.
  function Modulo(modulo: map<string, nat>, name: Option<string>, p: Prim, value: int)
    : (r: Result<Option<nat>, ModuloError>)
    ensures name.None? ==> r == Failure(NullKey)
    ensures r != Failure(KeyNotFound)
    ensures name.Some? && name.value !in modulo ==> r == Success(None)
    ensures r.Success? && r.value.Some? ==>
      name.Some? && name.value in modulo && (IsModuloType(p) || p == UInt64) &&
      r.value.value < modulo[name.value] && (value < modulo[name.value] ==> r.value.value == value)
  {
    if name.None? then Failure(NullKey)
    else if name.value in modulo && (IsModuloType(p) || p == UInt64) then
      match ApplyModulo(modulo, name, value)
      case Success(m) => Success(Some(m))
      case Failure(e) => Failure(e)
    else Success(None)
  }

  // The two agree on every configured property and on every type but ulong.
  lemma ModuloAgreesAsWritten(modulo: map<string, nat>, name: Option<string>, p: Prim, value: int)
    requires p != UInt64 || (name.Some? && name.value in modulo)
    ensures Modulo(modulo, name, p, value) == ModuloAsWritten(modulo, name, p, value)
  {
  }
}
