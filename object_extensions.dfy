// ObjectExtensions (TestApi.Tests/ObjectExtensions.cs): the comparison
// helpers built from the converter's serialization, JsonSorter and
// FileStringComparer, the depth guard, and the JSON-file lookups.
//
// JsonConvert.SerializeObject with a SafeJsonSerializerSettings, JToken.Parse,
// JToken.SelectToken and File.ReadAllText are parameters; their results are
// none when they throw (SelectToken: when it returns null; a malformed path,
// on which SelectToken throws a JsonException, is also none and so surfaces
// as the MissingPath FormatException).
module ObjectExtensions {
  import opened Wrappers
  import opened ObjectGraph
  import opened KeySort
  import J = JsonSorter
  import F = FileStringComparer

  const DEFAULT_MAXDEPTH: int := 99

  // The settings of the SafeJsonConverter a SafeJsonSerializerSettings
  // registers: MaxDepth, PropertiesToIgnore (None: null) and ModuloTransform
  // (None: unset).
  datatype Settings = Settings(maxDepth: int, propertiesToIgnore: Option<seq<string>>,
                               moduloTransform: Option<map<string, nat>>)

  // new SafeJsonSerializerSettings(): the converter's default constructor.
  function DefaultSettings(): (s: Settings)
    ensures s.maxDepth == 99 && s.propertiesToIgnore == Some([]) && s.moduloTransform == Some(map[])
  {
    Settings(DEFAULT_MAXDEPTH, Some([]), Some(map[]))
  }

  // new SafeJsonSerializerSettings(maxDepth, propertiesToIgnore).
  function DepthAndIgnoreSettings(maxDepth: int, propertiesToIgnore: Option<seq<string>>): (s: Settings)
    ensures s.maxDepth == maxDepth && s.propertiesToIgnore == propertiesToIgnore && s.moduloTransform.None?
  {
    Settings(maxDepth, propertiesToIgnore, None)
  }

  // new SafeJsonSerializerSettings(maxDepth).
  function DepthSettings(maxDepth: int): (s: Settings)
    ensures s.maxDepth == maxDepth && s.propertiesToIgnore == Some([]) && s.moduloTransform.None?
  {
    Settings(maxDepth, Some([]), None)
  }

  // JsonConvert.SerializeObject(obj, Formatting.Indented, settings).
  type Serializer = (Value, Settings) -> Option<string>

  // What JsonSorter.Sort(string) is built from.
  datatype TextSorter = TextSorter(parse: string -> Option<J.JToken>, render: J.Render, leq: Comparer)

  datatype ExtError =
    | CollectionDepth           // ArgumentException: maxDepth must be 2 or greater for a collection
    | NullReference             // a member called on null
    | SerializeFailed           // SerializeObject threw
    | SortFailed(e: J.TextError)
    | InvalidCast               // (JObject)jtoken on another token
    | FileUnreadable(path: string)
    | ParseFailed(json: string) // JToken.Parse threw
    | NotJsonFile(message: string)  // FormatException: not a .json file name
    | MissingPath(message: string)  // FormatException: no token at the object path

  // CheckDepth: obj.GetType() (so null throws), then the element type of its
  // first IEnumerable<T>; a class element with maxDepth 1 is refused.
  function CheckDepth(h: Heap, obj: Value, maxDepth: int): (r: Outcome<ExtError>)
    requires Valid(h, obj)
    ensures obj.Null? ==> r == Fail(NullReference)
    ensures obj.Ref? ==>
      (r.Fail? <==> ImplementsIEnumerable(h[obj.id].typ) && h[obj.id].typ.elem == ReferenceElem(true) && maxDepth == 1)
    ensures r.Fail? ==> r == Fail(NullReference) || r == Fail(CollectionDepth)
  {
    if obj.Null? then Fail(NullReference)
    else
      var t := h[obj.id].typ;
      if ImplementsIEnumerable(t) && t.elem.ReferenceElem? && t.elem.isClass && maxDepth == 1 then
        Fail(CollectionDepth)
      else Pass
  }

  // Any depth other than 1 passes every object.
  lemma CheckDepthOnlyRefusesOne(h: Heap, obj: Value, maxDepth: int)
    requires Valid(h, obj) && obj.Ref? && maxDepth != 1
    ensures CheckDepth(h, obj, maxDepth) == Pass
  {
  }

  // JsonSorter.Sort on a text.
  function SortJson(json: string, sorter: TextSorter): (r: Result<string, J.TextError>)
    ensures r.Success? <==> (sorter.parse(json).Some? &&
      J.SortSpec(sorter.parse(json).value, sorter.render, sorter.leq).Success?)
  {
    J.SortText(json, sorter.parse, sorter.render, sorter.leq)
  }

  // The two texts IsEqual compares: both serialized with the same settings,
  // then, when array order is to be ignored, both sorted (the first first).
  function ComparedTexts(obj1: Value, obj2: Value, settings: Settings, ignoreArrayElementOrder: bool,
                         serialize: Serializer, sorter: TextSorter): (r: Result<(string, string), ExtError>)
    ensures r.Success? && !ignoreArrayElementOrder ==>
      serialize(obj1, settings) == Some(r.value.0) && serialize(obj2, settings) == Some(r.value.1)
    ensures r.Success? && ignoreArrayElementOrder ==>
      serialize(obj1, settings).Some? && serialize(obj2, settings).Some? &&
      SortJson(serialize(obj1, settings).value, sorter) == Success(r.value.0) &&
      SortJson(serialize(obj2, settings).value, sorter) == Success(r.value.1)
    ensures r.Failure? <==>
      serialize(obj1, settings).None? || serialize(obj2, settings).None? ||
      (ignoreArrayElementOrder &&
       (SortJson(serialize(obj1, settings).value, sorter).Failure? ||
        SortJson(serialize(obj2, settings).value, sorter).Failure?))
  {
    match (serialize(obj1, settings), serialize(obj2, settings))
    case (None, _) => Failure(SerializeFailed)
    case (_, None) => Failure(SerializeFailed)
    case (Some(json1), Some(json2)) =>
      if !ignoreArrayElementOrder then Success((json1, json2))
      else
        match SortJson(json1, sorter)
        case Failure(e) => Failure(SortFailed(e))
        case Success(s1) =>
          match SortJson(json2, sorter)
          case Failure(e) => Failure(SortFailed(e))
          case Success(s2) => Success((s1, s2))
  }

  function Compare(obj1: Value, obj2: Value, settings: Settings, ignoreArrayElementOrder: bool,
                   serialize: Serializer, sorter: TextSorter): (r: Result<bool, ExtError>)
    ensures r.Success? <==> ComparedTexts(obj1, obj2, settings, ignoreArrayElementOrder, serialize, sorter).Success?
    ensures r.Success? ==>
      var texts := ComparedTexts(obj1, obj2, settings, ignoreArrayElementOrder, serialize, sorter).value;
      (r.value <==> texts.0 == texts.1)
  {
    match ComparedTexts(obj1, obj2, settings, ignoreArrayElementOrder, serialize, sorter)
    case Failure(e) => Failure(e)
    case Success(texts) => Success(texts.0 == texts.1)
  }

  // IsEqual(obj2, ignoreArrayElementOrder): the default settings, no depth
  // check.
  function IsEqual(obj1: Value, obj2: Value, ignoreArrayElementOrder: bool,
                   serialize: Serializer, sorter: TextSorter): (r: Result<bool, ExtError>)
    ensures r == Compare(obj1, obj2, DefaultSettings(), ignoreArrayElementOrder, serialize, sorter)
  {
    Compare(obj1, obj2, DefaultSettings(), ignoreArrayElementOrder, serialize, sorter)
  }

  // IsEqual(obj2, maxDepth, propertiesToIgnore, ignoreArrayElementOrder): the
  // depth of obj1 alone is checked, before anything is serialized.
  function IsEqualWithDepthAndIgnore(h: Heap, obj1: Value, obj2: Value, maxDepth: int,
                                     propertiesToIgnore: Option<seq<string>>, ignoreArrayElementOrder: bool,
                                     serialize: Serializer, sorter: TextSorter): (r: Result<bool, ExtError>)
    requires Valid(h, obj1)
    ensures CheckDepth(h, obj1, maxDepth).Fail? ==> r == Failure(CheckDepth(h, obj1, maxDepth).error)
    ensures CheckDepth(h, obj1, maxDepth).Pass? ==>
      r == Compare(obj1, obj2, DepthAndIgnoreSettings(maxDepth, propertiesToIgnore), ignoreArrayElementOrder,
                   serialize, sorter)
  {
    match CheckDepth(h, obj1, maxDepth)
    case Fail(e) => Failure(e)
    case Pass =>
      Compare(obj1, obj2, DepthAndIgnoreSettings(maxDepth, propertiesToIgnore), ignoreArrayElementOrder,
              serialize, sorter)
  }

  // IsEqual(obj2, maxDepth, ignoreArrayElementOrder).
  function IsEqualWithDepth(h: Heap, obj1: Value, obj2: Value, maxDepth: int, ignoreArrayElementOrder: bool,
                            serialize: Serializer, sorter: TextSorter): (r: Result<bool, ExtError>)
    requires Valid(h, obj1)
    ensures CheckDepth(h, obj1, maxDepth).Fail? ==> r == Failure(CheckDepth(h, obj1, maxDepth).error)
    ensures CheckDepth(h, obj1, maxDepth).Pass? ==>
      r == Compare(obj1, obj2, DepthSettings(maxDepth), ignoreArrayElementOrder, serialize, sorter)
  {
    match CheckDepth(h, obj1, maxDepth)
    case Fail(e) => Failure(e)
    case Pass => Compare(obj1, obj2, DepthSettings(maxDepth), ignoreArrayElementOrder, serialize, sorter)
  }

  // IsEqual(obj2, propertiesToIgnore, ignoreArrayElementOrder): the default
  // depth, no depth check.
  function IsEqualWithIgnore(obj1: Value, obj2: Value, propertiesToIgnore: Option<seq<string>>,
                             ignoreArrayElementOrder: bool, serialize: Serializer, sorter: TextSorter)
    : (r: Result<bool, ExtError>)
    ensures r == Compare(obj1, obj2, DepthAndIgnoreSettings(DEFAULT_MAXDEPTH, propertiesToIgnore),
                         ignoreArrayElementOrder, serialize, sorter)
  {
    Compare(obj1, obj2, DepthAndIgnoreSettings(DEFAULT_MAXDEPTH, propertiesToIgnore), ignoreArrayElementOrder,
            serialize, sorter)
  }

  // An object is equal to itself whenever its text can be produced.
  lemma CompareReflexive(obj: Value, settings: Settings, ignoreArrayElementOrder: bool,
                         serialize: Serializer, sorter: TextSorter)
    requires serialize(obj, settings).Some?
    requires ignoreArrayElementOrder ==> SortJson(serialize(obj, settings).value, sorter).Success?
    ensures Compare(obj, obj, settings, ignoreArrayElementOrder, serialize, sorter) == Success(true)
  {
  }

  // The comparison does not depend on which object comes first, except for
  // the error it reports.
  lemma CompareSymmetric(obj1: Value, obj2: Value, settings: Settings, ignoreArrayElementOrder: bool,
                         serialize: Serializer, sorter: TextSorter)
    ensures Compare(obj1, obj2, settings, ignoreArrayElementOrder, serialize, sorter).Success? <==>
            Compare(obj2, obj1, settings, ignoreArrayElementOrder, serialize, sorter).Success?
    ensures Compare(obj1, obj2, settings, ignoreArrayElementOrder, serialize, sorter).Success? ==>
            Compare(obj1, obj2, settings, ignoreArrayElementOrder, serialize, sorter) ==
            Compare(obj2, obj1, settings, ignoreArrayElementOrder, serialize, sorter)
  {
  }

  // Ignoring array order never separates two objects whose texts are equal.
  lemma SortingKeepsEquality(obj1: Value, obj2: Value, settings: Settings, serialize: Serializer, sorter: TextSorter)
    requires Compare(obj1, obj2, settings, false, serialize, sorter) == Success(true)
    requires SortJson(serialize(obj1, settings).value, sorter).Success?
    ensures Compare(obj1, obj2, settings, true, serialize, sorter) == Success(true)
  {
  }

  // IsSame: the hash codes (the heap ids) and then IsEqual; null on either
  // side throws.
  function IsSame(obj1: Value, obj2: Value, serialize: Serializer, sorter: TextSorter): (r: Result<bool, ExtError>)
    ensures obj1.Null? || obj2.Null? ==> r == Failure(NullReference)
    ensures r == Success(true) ==> obj1 == obj2
    ensures obj1.Ref? && obj2.Ref? && obj1 != obj2 ==> r == Success(false)
    ensures obj1.Ref? && obj1 == obj2 ==> r == IsEqual(obj1, obj2, false, serialize, sorter)
  {
    if obj1.Null? || obj2.Null? then Failure(NullReference)
    else if obj1.id != obj2.id then Success(false)
    else IsEqual(obj1, obj2, false, serialize, sorter)
  }

  // What IsEqualOrWrite gives back: the comparison, and the text it writes
  // to the test output, if any.
  datatype Reported = Reported(isEqual: bool, written: Option<string>)

  // The expected text (obj2's) on the left, the actual (obj1's) on the
  // right. The project's output helper adds the line break itself.
  function Report(texts: (string, string), newline: string): (r: Reported)
    ensures r.isEqual <==> texts.0 == texts.1
    ensures r.written.Some? <==> !r.isEqual
    ensures r.written.Some? ==>
      r.written.value == F.Text(F.SideBySideRows(texts.1, texts.0, "EXPECTED", "ACTUAL"), newline)
  {
    if texts.0 == texts.1 then Reported(true, None)
    else Reported(false, Some(F.Text(F.SideBySideRows(texts.1, texts.0, "EXPECTED", "ACTUAL"), newline)))
  }

  function CompareOrWrite(obj1: Value, obj2: Value, settings: Settings, ignoreArrayElementOrder: bool,
                          serialize: Serializer, sorter: TextSorter, newline: string): (r: Result<Reported, ExtError>)
    ensures r.Success? <==> Compare(obj1, obj2, settings, ignoreArrayElementOrder, serialize, sorter).Success?
    ensures r.Success? ==>
      r.value.isEqual == Compare(obj1, obj2, settings, ignoreArrayElementOrder, serialize, sorter).value &&
      (r.value.written.Some? <==> !r.value.isEqual)
  {
    match ComparedTexts(obj1, obj2, settings, ignoreArrayElementOrder, serialize, sorter)
    case Failure(e) => Failure(e)
    case Success(texts) => Success(Report(texts, newline))
  }

  // IsEqualOrWrite(obj2, output, ignoreArrayElementOrder).
  function IsEqualOrWrite(obj1: Value, obj2: Value, ignoreArrayElementOrder: bool,
                          serialize: Serializer, sorter: TextSorter, newline: string): (r: Result<Reported, ExtError>)
    ensures r == CompareOrWrite(obj1, obj2, DefaultSettings(), ignoreArrayElementOrder, serialize, sorter, newline)
  {
    CompareOrWrite(obj1, obj2, DefaultSettings(), ignoreArrayElementOrder, serialize, sorter, newline)
  }

  // IsEqualOrWrite(obj2, maxDepth, propertiesToIgnore, output, ignoreArrayElementOrder).
  function IsEqualOrWriteWithDepthAndIgnore(h: Heap, obj1: Value, obj2: Value, maxDepth: int,
                                            propertiesToIgnore: Option<seq<string>>, ignoreArrayElementOrder: bool,
                                            serialize: Serializer, sorter: TextSorter, newline: string)
    : (r: Result<Reported, ExtError>)
    requires Valid(h, obj1)
    ensures CheckDepth(h, obj1, maxDepth).Fail? ==> r == Failure(CheckDepth(h, obj1, maxDepth).error)
    ensures CheckDepth(h, obj1, maxDepth).Pass? ==>
      r == CompareOrWrite(obj1, obj2, DepthAndIgnoreSettings(maxDepth, propertiesToIgnore), ignoreArrayElementOrder,
                          serialize, sorter, newline)
  {
    match CheckDepth(h, obj1, maxDepth)
    case Fail(e) => Failure(e)
    case Pass =>
      CompareOrWrite(obj1, obj2, DepthAndIgnoreSettings(maxDepth, propertiesToIgnore), ignoreArrayElementOrder,
                     serialize, sorter, newline)
  }

  // IsEqualOrWrite(obj2, maxDepth, output, ignoreArrayElementOrder).
  function IsEqualOrWriteWithDepth(h: Heap, obj1: Value, obj2: Value, maxDepth: int, ignoreArrayElementOrder: bool,
                                   serialize: Serializer, sorter: TextSorter, newline: string)
    : (r: Result<Reported, ExtError>)
    requires Valid(h, obj1)
    ensures CheckDepth(h, obj1, maxDepth).Fail? ==> r == Failure(CheckDepth(h, obj1, maxDepth).error)
    ensures CheckDepth(h, obj1, maxDepth).Pass? ==>
      r == CompareOrWrite(obj1, obj2, DepthSettings(maxDepth), ignoreArrayElementOrder, serialize, sorter, newline)
  {
    match CheckDepth(h, obj1, maxDepth)
    case Fail(e) => Failure(e)
    case Pass => CompareOrWrite(obj1, obj2, DepthSettings(maxDepth), ignoreArrayElementOrder, serialize, sorter, newline)
  }

  // IsEqualOrWrite(obj2, propertiesToIgnore, output, ignoreArrayElementOrder).
  function IsEqualOrWriteWithIgnore(obj1: Value, obj2: Value, propertiesToIgnore: Option<seq<string>>,
                                    ignoreArrayElementOrder: bool, serialize: Serializer, sorter: TextSorter,
                                    newline: string): (r: Result<Reported, ExtError>)
    ensures r == CompareOrWrite(obj1, obj2, DepthAndIgnoreSettings(DEFAULT_MAXDEPTH, propertiesToIgnore),
                                ignoreArrayElementOrder, serialize, sorter, newline)
  {
    CompareOrWrite(obj1, obj2, DepthAndIgnoreSettings(DEFAULT_MAXDEPTH, propertiesToIgnore), ignoreArrayElementOrder,
                   serialize, sorter, newline)
  }

  // IsEqualOrWrite reports what IsEqual computes, and writes the side-by-side
  // comparison, expected text on the left, exactly when the texts differ.
  lemma IsEqualOrWriteReportsIsEqual(obj1: Value, obj2: Value, ignoreArrayElementOrder: bool,
                                     serialize: Serializer, sorter: TextSorter, newline: string)
    ensures var w := IsEqualOrWrite(obj1, obj2, ignoreArrayElementOrder, serialize, sorter, newline);
      var e := IsEqual(obj1, obj2, ignoreArrayElementOrder, serialize, sorter);
      (w.Success? <==> e.Success?) &&
      (w.Success? ==> w.value.isEqual == e.value && (w.value.written.Some? <==> !e.value)) &&
      (w.Failure? ==> w.error == e.error)
    ensures var w := IsEqualOrWrite(obj1, obj2, ignoreArrayElementOrder, serialize, sorter, newline);
      var texts := ComparedTexts(obj1, obj2, DefaultSettings(), ignoreArrayElementOrder, serialize, sorter);
      w.Success? && w.value.written.Some? ==>
        w.value.written.value == F.Text(F.SideBySideRows(texts.value.1, texts.value.0, "EXPECTED", "ACTUAL"), newline)
  {
  }

  // Juxtapose: the side-by-side comparison, obj1 on the left.
  function Juxtaposed(obj1: Value, obj2: Value, label1: string, label2: string, settings: Settings,
                      serialize: Serializer, newline: string): (r: Result<string, ExtError>)
    ensures r.Success? <==> serialize(obj1, settings).Some? && serialize(obj2, settings).Some?
    ensures r.Success? ==>
      r.value == F.Text(F.SideBySideRows(serialize(obj1, settings).value, serialize(obj2, settings).value,
                                         label1, label2), newline)
  {
    match (serialize(obj1, settings), serialize(obj2, settings))
    case (None, _) => Failure(SerializeFailed)
    case (_, None) => Failure(SerializeFailed)
    case (Some(json1), Some(json2)) => Success(F.Text(F.SideBySideRows(json1, json2, label1, label2), newline))
  }

  // Juxtapose(obj2, label1, label2).
  function Juxtapose(obj1: Value, obj2: Value, label1: string, label2: string,
                     serialize: Serializer, newline: string): (r: Result<string, ExtError>)
    ensures r == Juxtaposed(obj1, obj2, label1, label2, DefaultSettings(), serialize, newline)
  {
    Juxtaposed(obj1, obj2, label1, label2, DefaultSettings(), serialize, newline)
  }

  // Juxtapose(obj2, label1, label2, maxDepth, propertiesToIgnore).
  function JuxtaposeWithDepthAndIgnore(h: Heap, obj1: Value, obj2: Value, label1: string, label2: string,
                                       maxDepth: int, propertiesToIgnore: Option<seq<string>>,
                                       serialize: Serializer, newline: string): (r: Result<string, ExtError>)
    requires Valid(h, obj1)
    ensures CheckDepth(h, obj1, maxDepth).Fail? ==> r == Failure(CheckDepth(h, obj1, maxDepth).error)
    ensures CheckDepth(h, obj1, maxDepth).Pass? ==>
      r == Juxtaposed(obj1, obj2, label1, label2, DepthAndIgnoreSettings(maxDepth, propertiesToIgnore),
                      serialize, newline)
  {
    match CheckDepth(h, obj1, maxDepth)
    case Fail(e) => Failure(e)
    case Pass =>
      Juxtaposed(obj1, obj2, label1, label2, DepthAndIgnoreSettings(maxDepth, propertiesToIgnore), serialize, newline)
  }

  // Juxtapose(obj2, label1, label2, maxDepth).
  function JuxtaposeWithDepth(h: Heap, obj1: Value, obj2: Value, label1: string, label2: string, maxDepth: int,
                              serialize: Serializer, newline: string): (r: Result<string, ExtError>)
    requires Valid(h, obj1)
    ensures CheckDepth(h, obj1, maxDepth).Fail? ==> r == Failure(CheckDepth(h, obj1, maxDepth).error)
    ensures CheckDepth(h, obj1, maxDepth).Pass? ==>
      r == Juxtaposed(obj1, obj2, label1, label2, DepthSettings(maxDepth), serialize, newline)
  {
    match CheckDepth(h, obj1, maxDepth)
    case Fail(e) => Failure(e)
    case Pass => Juxtaposed(obj1, obj2, label1, label2, DepthSettings(maxDepth), serialize, newline)
  }

  // Juxtapose(obj2, label1, label2, propertiesToIgnore).
  function JuxtaposeWithIgnore(obj1: Value, obj2: Value, label1: string, label2: string,
                               propertiesToIgnore: Option<seq<string>>, serialize: Serializer, newline: string)
    : (r: Result<string, ExtError>)
    ensures r == Juxtaposed(obj1, obj2, label1, label2, DepthAndIgnoreSettings(DEFAULT_MAXDEPTH, propertiesToIgnore),
                            serialize, newline)
  {
    Juxtaposed(obj1, obj2, label1, label2, DepthAndIgnoreSettings(DEFAULT_MAXDEPTH, propertiesToIgnore),
               serialize, newline)
  }

  // The overloads that take a depth but no names behave as the ones that
  // take both, given an empty list of names.
  lemma DepthOverloadsIgnoreNothing(h: Heap, obj1: Value, obj2: Value, maxDepth: int, ignoreArrayElementOrder: bool,
                                    label1: string, label2: string, serialize: Serializer, sorter: TextSorter,
                                    newline: string)
    requires Valid(h, obj1)
    ensures IsEqualWithDepth(h, obj1, obj2, maxDepth, ignoreArrayElementOrder, serialize, sorter) ==
      IsEqualWithDepthAndIgnore(h, obj1, obj2, maxDepth, Some([]), ignoreArrayElementOrder, serialize, sorter)
    ensures IsEqualOrWriteWithDepth(h, obj1, obj2, maxDepth, ignoreArrayElementOrder, serialize, sorter, newline) ==
      IsEqualOrWriteWithDepthAndIgnore(h, obj1, obj2, maxDepth, Some([]), ignoreArrayElementOrder, serialize, sorter,
                                       newline)
    ensures JuxtaposeWithDepth(h, obj1, obj2, label1, label2, maxDepth, serialize, newline) ==
      JuxtaposeWithDepthAndIgnore(h, obj1, obj2, label1, label2, maxDepth, Some([]), serialize, newline)
  {
  }

  function Serialized(obj: Value, settings: Settings, serialize: Serializer): (r: Result<string, ExtError>)
    ensures r.Success? <==> serialize(obj, settings).Some?
    ensures r.Success? ==> r.value == serialize(obj, settings).value
    ensures r.Failure? ==> r == Failure(SerializeFailed)
  {
    match serialize(obj, settings)
    case None => Failure(SerializeFailed)
    case Some(json) => Success(json)
  }

  // ToJsonString().
  function ToJsonString(obj: Value, serialize: Serializer): (r: Result<string, ExtError>)
    ensures r == Serialized(obj, DefaultSettings(), serialize)
  {
    Serialized(obj, DefaultSettings(), serialize)
  }

  // ToJsonString(maxDepth, propertiesToIgnore): this overload does not check
  // the depth.
  function ToJsonStringWithDepthAndIgnore(obj: Value, maxDepth: int, propertiesToIgnore: Option<seq<string>>,
                                          serialize: Serializer): (r: Result<string, ExtError>)
    ensures r == Serialized(obj, DepthAndIgnoreSettings(maxDepth, propertiesToIgnore), serialize)
  {
    Serialized(obj, DepthAndIgnoreSettings(maxDepth, propertiesToIgnore), serialize)
  }

  // ToJsonString(maxDepth): this one does.
  function ToJsonStringWithDepth(h: Heap, obj: Value, maxDepth: int, serialize: Serializer)
    : (r: Result<string, ExtError>)
    requires Valid(h, obj)
    ensures CheckDepth(h, obj, maxDepth).Fail? ==> r == Failure(CheckDepth(h, obj, maxDepth).error)
    ensures CheckDepth(h, obj, maxDepth).Pass? ==> r == Serialized(obj, DepthSettings(maxDepth), serialize)
  {
    match CheckDepth(h, obj, maxDepth)
    case Fail(e) => Failure(e)
    case Pass => Serialized(obj, DepthSettings(maxDepth), serialize)
  }

  // ToJsonString(propertiesToIgnore).
  function ToJsonStringWithIgnore(obj: Value, propertiesToIgnore: Option<seq<string>>, serialize: Serializer)
    : (r: Result<string, ExtError>)
    ensures r == Serialized(obj, DepthAndIgnoreSettings(DEFAULT_MAXDEPTH, propertiesToIgnore), serialize)
  {
    Serialized(obj, DepthAndIgnoreSettings(DEFAULT_MAXDEPTH, propertiesToIgnore), serialize)
  }

  // The two overloads with a depth and names to ignore differ only in the
  // depth check: on a collection of class objects serialized one level deep
  // ToJsonString gives a text where IsEqual and Juxtapose refuse.
  lemma OnlyToJsonStringSkipsTheDepthCheck(h: Heap, obj: Value, propertiesToIgnore: Option<seq<string>>,
                                           serialize: Serializer, sorter: TextSorter, newline: string)
    requires Valid(h, obj) && obj.Ref?
    requires ImplementsIEnumerable(h[obj.id].typ) && h[obj.id].typ.elem == ReferenceElem(true)
    requires serialize(obj, DepthAndIgnoreSettings(1, propertiesToIgnore)).Some?
    ensures ToJsonStringWithDepthAndIgnore(obj, 1, propertiesToIgnore, serialize).Success?
    ensures IsEqualWithDepthAndIgnore(h, obj, obj, 1, propertiesToIgnore, false, serialize, sorter) ==
            Failure(CollectionDepth)
    ensures JuxtaposeWithDepthAndIgnore(h, obj, obj, "", "", 1, propertiesToIgnore, serialize, newline) ==
            Failure(CollectionDepth)
  {
  }

  // JToken.Properties(): the cast to JObject, then its properties.
  function Properties(t: J.JToken): (r: Result<seq<J.JToken>, ExtError>)
    ensures r.Success? <==> t.JObject?
    ensures r.Success? ==> r.value == J.Children(t)
  {
    if t.JObject? then Success(t.props) else Failure(InvalidCast)
  }

  // objectPath.Replace(@"\", ".").Replace(@"/", ".").
  function NormalizePath(path: string): (r: string)
    ensures |r| == |path|
    ensures forall i :: 0 <= i < |path| ==>
      r[i] == (if path[i] == '\\' || path[i] == '/' then '.' else path[i])
  {
    if path == [] then []
    else [if path[0] == '\\' || path[0] == '/' then '.' else path[0]] + NormalizePath(path[1..])
  }

  // No separator is left, and normalizing twice changes nothing.
  lemma NormalizePathIdempotent(path: string)
    ensures '\\' !in NormalizePath(path) && '/' !in NormalizePath(path)
    ensures NormalizePath(NormalizePath(path)) == NormalizePath(path)
  {
    var n := NormalizePath(path);
    assert forall i :: 0 <= i < |n| ==> n[i] != '\\' && n[i] != '/';
  }

  // The lookups the path helpers use.
  datatype Lookup = Lookup(
    files: map<string, string>,                     // File.ReadAllText; absent: it throws
    parse: string -> Option<J.JToken>,              // JToken.Parse
    select: (J.JToken, string) -> Option<J.JToken>) // JToken.SelectToken; none: null

  function MissingPathMessage(filePath: string, objectPath: string): string
  {
    filePath + " does not contain the target json path: \"" + objectPath + "\"."
  }

  function ReadToken(filePath: string, lookup: Lookup): (r: Result<J.JToken, ExtError>)
    ensures r.Success? <==> filePath in lookup.files && lookup.parse(lookup.files[filePath]).Some?
    ensures r.Success? ==> r.value == lookup.parse(lookup.files[filePath]).value
  {
    if filePath !in lookup.files then Failure(FileUnreadable(filePath))
    else match lookup.parse(lookup.files[filePath])
      case None => Failure(ParseFailed(lookup.files[filePath]))
      case Some(t) => Success(t)
  }

  // The token at a path of a file's JSON; a missing one is reported under
  // the name shown.
  function SelectIn(filePath: string, objectPath: string, shownPath: string, lookup: Lookup)
    : (r: Result<J.JToken, ExtError>)
    ensures ReadToken(filePath, lookup).Failure? ==> r == Failure(ReadToken(filePath, lookup).error)
    ensures ReadToken(filePath, lookup).Success? ==>
      var found := lookup.select(ReadToken(filePath, lookup).value, objectPath);
      (found.None? ==> r == Failure(MissingPath(MissingPathMessage(filePath, shownPath)))) &&
      (found.Some? ==> r == Success(found.value))
  {
    match ReadToken(filePath, lookup)
    case Failure(e) => Failure(e)
    case Success(t) =>
      match lookup.select(t, objectPath)
      case None => Failure(MissingPath(MissingPathMessage(filePath, shownPath)))
      case Some(found) => Success(found)
  }

  // FromJsonPath(filePath, objectPath): the token at the normalized path.
  // The message names the path as it was given. The conversion to T is not
  // modelled: the result is the token.
  function FromJsonPath(filePath: string, objectPath: string, lookup: Lookup): (r: Result<J.JToken, ExtError>)
    ensures r == SelectIn(filePath, NormalizePath(objectPath), objectPath, lookup)
  {
    SelectIn(filePath, NormalizePath(objectPath), objectPath, lookup)
  }

  // FromJsonPath(jtoken, objectPath): no null check, so a missing path makes
  // ToObject throw.
  function FromTokenPath(t: J.JToken, objectPath: string, lookup: Lookup): (r: Result<J.JToken, ExtError>)
    ensures r.Success? <==> lookup.select(t, NormalizePath(objectPath)).Some?
    ensures r.Success? ==> r.value == lookup.select(t, NormalizePath(objectPath)).value
    ensures r.Failure? ==> r == Failure(NullReference)
  {
    match lookup.select(t, NormalizePath(objectPath))
    case None => Failure(NullReference)
    case Some(found) => Success(found)
  }

  // ".json" starts at index i of s.
  predicate JsonAt(s: string, i: nat)
  {
    i + 5 <= |s| && s[i..i + 5] == ".json"
  }

  predicate NoJson(s: string)
  {
    forall i :: 0 <= i < |s| ==> !JsonAt(s, i)
  }

  predicate IsSeparator(c: char)
  {
    c == '\\' || c == '/' || c == '.'
  }

  // The first ".json" at or after index from.
  function FirstJson(s: string, from: nat): (r: Option<nat>)
    ensures r.Some? ==> from <= r.value && JsonAt(s, r.value)
    decreases |s| - from
  {
    if from >= |s| then None
    else if JsonAt(s, from) then Some(from)
    else FirstJson(s, from + 1)
  }

  // No match is skipped.
  lemma {:induction false} FirstJsonIsFirst(s: string, from: nat)
    ensures forall i :: from <= i < |s| && (FirstJson(s, from).None? || i < FirstJson(s, from).value) ==>
      !JsonAt(s, i)
    decreases |s| - from
  {
    if from < |s| && !JsonAt(s, from) {
      FirstJsonIsFirst(s, from + 1);
    }
  }

  // One match of \.json(\\|/|\.)? against the text: the text before it and
  // the separator it captured, if any.
  datatype Cut = Cut(before: string, captured: Option<char>)

  // The matches of Regex.Matches / Regex.Split with that pattern, leftmost
  // first, and the text after the last one. The optional group is greedy.
  function Cuts(s: string): (r: (seq<Cut>, string))
    ensures r.0 == [] <==> FirstJson(s, 0).None?
    ensures r.0 == [] ==> r.1 == s
    decreases |s|
  {
    match FirstJson(s, 0)
    case None => ([], s)
    case Some(i) =>
      var j := i + 5;
      if j < |s| && IsSeparator(s[j]) then
        var rest := Cuts(s[j + 1..]);
        ([Cut(s[..i], Some(s[j]))] + rest.0, rest.1)
      else
        var rest := Cuts(s[j..]);
        ([Cut(s[..i], None)] + rest.0, rest.1)
  }

  // Regex.Matches finds nothing exactly when the text holds no ".json".
  lemma NoCutsIffNoJson(s: string)
    ensures NoJson(s) <==> Cuts(s).0 == []
  {
    FirstJsonIsFirst(s, 0);
  }

  // Regex.Split's array: each piece, each captured separator after it, and
  // the remainder.
  function SplitPieces(cuts: seq<Cut>, rest: string): (paths: seq<string>)
    ensures |paths| >= 1
    ensures cuts != [] ==> paths[0] == cuts[0].before
  {
    if cuts == [] then [rest]
    else
      [cuts[0].before] + (if cuts[0].captured.Some? then [[cuts[0].captured.value]] else []) +
      SplitPieces(cuts[1..], rest)
  }

  // Putting the matched ".json" and separators back gives the text.
  function Rejoin(cuts: seq<Cut>, rest: string): string
  {
    if cuts == [] then rest
    else
      cuts[0].before + ".json" + Captured(cuts[0]) + Rejoin(cuts[1..], rest)
  }

  // Cuts, one step: the first match and the cuts of what follows it.
  lemma CutsAt(s: string, i: nat)
    requires FirstJson(s, 0) == Some(i)
    ensures i + 5 <= |s| && s[i..i + 5] == ".json"
    ensures i + 5 < |s| && IsSeparator(s[i + 5]) ==>
      Cuts(s) == ([Cut(s[..i], Some(s[i + 5]))] + Cuts(s[i + 6..]).0, Cuts(s[i + 6..]).1)
    ensures !(i + 5 < |s| && IsSeparator(s[i + 5])) ==>
      Cuts(s) == ([Cut(s[..i], None)] + Cuts(s[i + 5..]).0, Cuts(s[i + 5..]).1)
  {
  }

  lemma NoJsonBefore(s: string, i: nat)
    requires FirstJson(s, 0) == Some(i)
    ensures NoJson(s[..i])
  {
    FirstJsonIsFirst(s, 0);
    var before := s[..i];
    forall m | 0 <= m < |before| ensures !JsonAt(before, m) {
      if JsonAt(before, m) {
        assert s[m..m + 5] == before[m..m + 5];
        assert JsonAt(s, m);
      }
    }
  }

  function Captured(c: Cut): string
  {
    if c.captured.Some? then [c.captured.value] else []
  }

  lemma RejoinCons(c: Cut, cs: seq<Cut>, rest: string)
    ensures Rejoin([c] + cs, rest) == c.before + ".json" + Captured(c) + Rejoin(cs, rest)
  {
    assert ([c] + cs)[1..] == cs;
  }

  // The text after the first match, as Cuts continues with it.
  function AfterFirst(s: string, i: nat): string
    requires i + 5 <= |s|
  {
    if i + 5 < |s| && IsSeparator(s[i + 5]) then s[i + 6..] else s[i + 5..]
  }

  // The cut the first match makes.
  function FirstCut(s: string, i: nat): Cut
    requires i + 5 <= |s|
  {
    Cut(s[..i], if i + 5 < |s| && IsSeparator(s[i + 5]) then Some(s[i + 5]) else None)
  }

  lemma CutsStep(s: string, i: nat)
    requires FirstJson(s, 0) == Some(i)
    ensures i + 5 <= |s|
    ensures Cuts(s) == ([FirstCut(s, i)] + Cuts(AfterFirst(s, i)).0, Cuts(AfterFirst(s, i)).1)
  {
    CutsAt(s, i);
  }

  lemma TextAroundFirst(s: string, i: nat)
    requires i + 5 <= |s| && s[i..i + 5] == ".json"
    ensures s == s[..i] + ".json" + Captured(FirstCut(s, i)) + AfterFirst(s, i)
  {
    var c := FirstCut(s, i);
    if i + 5 < |s| && IsSeparator(s[i + 5]) {
      assert Captured(c) == [s[i + 5]];
      assert s == s[..i] + s[i..i + 5] + [s[i + 5]] + s[i + 6..];
    } else {
      assert Captured(c) == [];
      assert s == s[..i] + s[i..i + 5] + s[i + 5..];
    }
  }

  // The cuts lose nothing: putting the matches back gives the text.
  lemma {:induction false} CutsRejoin(s: string)
    ensures Rejoin(Cuts(s).0, Cuts(s).1) == s
    decreases |s|
  {
    match FirstJson(s, 0)
    case None =>
    case Some(i) =>
      CutsStep(s, i);
      TextAroundFirst(s, i);
      var tail := AfterFirst(s, i);
      CutsRejoin(tail);
      RejoinCons(Cuts(s).0[0], Cuts(tail).0, Cuts(tail).1);
      assert Cuts(s).0 == [Cuts(s).0[0]] + Cuts(tail).0;
  }

  // The matches are the leftmost ones: no piece before a match holds
  // ".json" itself.
  lemma {:induction false} CutsLeftmost(s: string)
    ensures forall k :: 0 <= k < |Cuts(s).0| ==> NoJson(Cuts(s).0[k].before)
    decreases |s|
  {
    match FirstJson(s, 0)
    case None =>
    case Some(i) =>
      CutsStep(s, i);
      NoJsonBefore(s, i);
      var tail := AfterFirst(s, i);
      CutsLeftmost(tail);
      var c := Cuts(s);
      forall k | 0 <= k < |c.0| ensures NoJson(c.0[k].before) {
        if k > 0 {
          assert c.0[k] == Cuts(tail).0[k - 1];
        }
      }
  }

  // In ".json" the dot comes first and only there.
  lemma DotOnlyFirst(s: string, i: nat, k: nat)
    requires 0 < k < 5 && i + k < |s| && s[i + k] == '.'
    ensures !JsonAt(s, i)
  {
    if i + 5 <= |s| {
      assert s[i..i + 5][k] == '.' != ".json"[k];
    }
  }

  // ".json" overlaps no earlier copy of itself.
  lemma FirstJsonAfter(f: string, tail: string)
    requires NoJson(f)
    ensures FirstJson(f + ".json" + tail, 0) == Some(|f|)
  {
    var s := f + ".json" + tail;
    assert s[|f|..|f| + 5] == ".json";
    forall i | 0 <= i < |f| ensures !JsonAt(s, i) {
      if i + 5 <= |f| {
        assert s[i..i + 5] == f[i..i + 5];
        assert !JsonAt(f, i);
      } else {
        assert s[|f|] == '.';
        DotOnlyFirst(s, i, |f| - i);
      }
    }
    FirstJsonNone(s, 0, |f|);
  }

  lemma {:induction false} FirstJsonNone(s: string, from: nat, at: nat)
    requires from <= at && JsonAt(s, at)
    requires forall i :: from <= i < at ==> !JsonAt(s, i)
    ensures FirstJson(s, from) == Some(at)
    decreases at - from
  {
    if from < at {
      FirstJsonNone(s, from + 1, at);
    }
  }

  function NotJsonPathMessage(jsonFileObjectPath: string): string
  {
    "jsonFileObjectPath value (" + jsonFileObjectPath +
    ") must be a .json file name optionally followed by \\ and then path to the object"
  }

  // FromJsonPath(jsonFileObjectPath): refused without a ".json"; the file is
  // the first piece plus ".json"; an object path is looked up only when the
  // split gives exactly three parts, and then it is the third.
  function FromJsonFileObjectPath(jsonFileObjectPath: string, lookup: Lookup): (r: Result<J.JToken, ExtError>)
    ensures NoJson(jsonFileObjectPath) ==> r == Failure(NotJsonFile(NotJsonPathMessage(jsonFileObjectPath)))
    ensures !NoJson(jsonFileObjectPath) ==> !(r.Failure? && r.error.NotJsonFile?)
  {
    NoCutsIffNoJson(jsonFileObjectPath);
    var cuts := Cuts(jsonFileObjectPath);
    if cuts.0 == [] then Failure(NotJsonFile(NotJsonPathMessage(jsonFileObjectPath)))
    else
      var paths := SplitPieces(cuts.0, cuts.1);
      var filePath := paths[0] + ".json";
      if |paths| == 3 then
        var objectPath := NormalizePath(paths[2]);
        SelectIn(filePath, objectPath, objectPath, lookup)
      else ReadToken(filePath, lookup)
  }

  lemma CombinedPathCuts(file: string, sep: char, objectPath: string)
    requires NoJson(file) && NoJson(objectPath) && IsSeparator(sep)
    ensures Cuts(file + ".json" + [sep] + objectPath) == ([Cut(file, Some(sep))], objectPath)
  {
    var s := file + ".json" + [sep] + objectPath;
    assert s == file + ".json" + ([sep] + objectPath);
    FirstJsonAfter(file, [sep] + objectPath);
    CutsStep(s, |file|);
    NoCutsIffNoJson(objectPath);
    assert s[|file| + 5] == sep && s[|file| + 6..] == objectPath && s[..|file|] == file;
    assert FirstCut(s, |file|) == Cut(file, Some(sep));
    assert AfterFirst(s, |file|) == objectPath;
    assert Cuts(s).0 == [Cut(file, Some(sep))] + [];
    assert Cuts(objectPath) == ([], objectPath);
    assert Cuts(s).1 == objectPath;
    assert Cuts(s).0 == [Cut(file, Some(sep))];
  }

  lemma CombinedPathPieces(file: string, sep: char, objectPath: string)
    requires NoJson(file) && NoJson(objectPath) && IsSeparator(sep)
    ensures var cuts := Cuts(file + ".json" + [sep] + objectPath);
      cuts.0 != [] && SplitPieces(cuts.0, cuts.1) == [file, [sep], objectPath]
  {
    CombinedPathCuts(file, sep, objectPath);
    assert [Cut(file, Some(sep))][1..] == [];
    assert SplitPieces([Cut(file, Some(sep))], objectPath) == [file] + [[sep]] + [objectPath];
  }

  // A file name, ".json", one separator and an object path (neither holding
  // ".json"): the same as the two-argument FromJsonPath on that file and the
  // normalized object path.
  lemma CombinedPathLooksUpObject(file: string, sep: char, objectPath: string, lookup: Lookup)
    requires NoJson(file) && NoJson(objectPath) && IsSeparator(sep)
    ensures FromJsonFileObjectPath(file + ".json" + [sep] + objectPath, lookup) ==
            FromJsonPath(file + ".json", NormalizePath(objectPath), lookup)
  {
    CombinedPathPieces(file, sep, objectPath);
    NormalizePathIdempotent(objectPath);
  }

  // A file name followed by ".json" alone: the whole file's token.
  lemma FilePathReadsWholeFile(file: string, lookup: Lookup)
    requires NoJson(file)
    ensures FromJsonFileObjectPath(file + ".json", lookup) == ReadToken(file + ".json", lookup)
  {
    var s := file + ".json";
    assert s == file + ".json" + "";
    FirstJsonAfter(file, "");
    CutsAt(s, |file|);
    assert s[..|file|] == file;
    assert s[|file| + 5..] == "";
    assert Cuts("") == ([], "");
    var cuts := Cuts(s);
    assert cuts.0 == [Cut(file, None)] + [];
    assert cuts.1 == "";
    assert SplitPieces(cuts.0, cuts.1) == [file, ""];
  }
}
