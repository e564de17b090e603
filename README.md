# EDennis.JsonUtils in Dafny

EDennis.JsonUtils and its predecessor EDennis.SafeJsonConverter serialize object graphs that may hold reference cycles, such as Entity Framework entities with navigation properties. They write to a JSON writer and always terminate. Termination comes from three guards:

- a depth bound, `maxDepth`;
- a set of property names that are never written;
- a record of the objects already met.

The repository contains three versions of this serializer, and this project models each one separately:

- **The depth-keyed serializer** (`DepthKeyedSerializer`):
  - A dictionary maps the hash code of each object to the depth at which the object was first registered.
  - An object that has navigation properties is left out when it is met again at a *different* depth.
  - A list is left out when the list itself, or any of its elements, is registered at another depth.
  - Depth starts at 1.
- **The older nested serializer** (`NestedSafeJsonConverter`):
  - It uses the same dictionary, but leaves out any object registered at another depth, unconditionally.
  - Depth starts at 0.
  - Arrays are not treated as collections.
- **The static serializer** (`StaticSerializer`):
  - A total classifier decides the JSON kind of every value.
  - A single global list of hash codes suppresses any container met a second time.
  - The depth bound is compared with the writer's own depth.
  - An array can optionally be written in the order of the text of each element, serialized on its own.

Around the serializers sit the smaller pieces:

- the two Json.NET converters that wrap them (`NestedSafeJsonConverter.SafeJsonConverter` and `JsonUtilsConverter`), including the modulo rule that survives only as commented-out code;
- the test helpers in `ObjectExtensions`: comparison by serialized text, the depth check, and lookup of a JSON file path;
- the JSON canonicaliser `JsonSorter`, with the key order of its `SortedDictionary` in `KeySort`;
- the side-by-side line comparison `FileStringComparer`;
- the two stack machines that convert JSON to JXML (`JsonToJxml`) and JXML back to JSON (`JxmlToJson`). JXML is JSON written as XML. `RoundTrips` follows a small object through both machines.

Shared modules:

- `ObjectGraph` is the heap. Objects have ids, runtime types and field descriptors (name, declared type, value).
  - A type is described by its shape: a primitive kind, a `List<>`, an array, a dictionary, another enumerable, `System.Object`, a user class, `Nullable<T>`, and so on. The reflection tests of the source are functions on that shape.
  - Hash codes are the ids. `GetHashCode` in the source can give equal codes to distinct objects; the model cannot.
- `JsonTokens` is the writer. It appends tokens, and its depth counts the open containers.
- `Wrappers` holds `Option`, `Result` and `Outcome`. An exception in the source is the `Fail`/`Failure` case of the result.

## Model

| member | source | states |
|---|---|---|
| DepthKeyedSerializer.Properties | EDennis.JsonUtils/EDennis.JsonUtils/SafeJsonSerializer.cs:307-363 | one descriptor per property, in order; succeeds exactly when every format renders; otherwise fails with BadFormat naming the first property whose format fails |
| DepthKeyedSerializer.HasNavigationProperties | EDennis.JsonUtils/EDennis.JsonUtils/SafeJsonSerializer.cs:369-371 | true exactly when some property is a `List<>` collection or a user object (an array counts only when it is a user object too: arrays of System types do not count) |
| DepthKeyedSerializer.FindProperty | EDennis.JsonUtils/EDennis.JsonUtils/SafeJsonSerializer.cs:379-391 | the index of the first property with that name, or None when no property has it |
| DepthKeyedSerializer.SimpleIsWritable | EDennis.JsonUtils/EDennis.JsonUtils/SafeJsonSerializer.cs:156-165 | every simple type except IntPtr and UIntPtr is accepted by the writer's WriteValue |
| DepthKeyedSerializer.DescribeAllAt | EDennis.JsonUtils/EDennis.JsonUtils/SafeJsonSerializer.cs:307-363 | one descriptor per property, the i-th built from the i-th property and its format |
| DepthKeyedSerializer.DescribedValid | EDennis.JsonUtils/EDennis.JsonUtils/SafeJsonSerializer.cs:307-363 | every described property value lies in the heap |
| DepthKeyedSerializer.NavigableDescribed | EDennis.JsonUtils/EDennis.JsonUtils/SafeJsonSerializer.cs:369-371 | the descriptors have navigation properties exactly when the object has a `List<>` or user-class property |
| DepthKeyedSerializer.ObjectRunBounded | EDennis.JsonUtils/EDennis.JsonUtils/SafeJsonSerializer.cs:176-291 | every output an object can produce at depth d is balanced and nests at most maxDepth + 1 - d containers deep |
| DepthKeyedSerializer.ObjectBodyBounded | EDennis.JsonUtils/EDennis.JsonUtils/SafeJsonSerializer.cs:238-289 | an object body is balanced and within the same depth bound |
| DepthKeyedSerializer.PropertyRunBounded | EDennis.JsonUtils/EDennis.JsonUtils/SafeJsonSerializer.cs:253-287 | a property's output is balanced and within the depth bound |
| DepthKeyedSerializer.ListRunBounded | EDennis.JsonUtils/EDennis.JsonUtils/SafeJsonSerializer.cs:103-153 | every output a list can produce at depth d is balanced and nests at most maxDepth + 1 - d containers deep |
| DepthKeyedSerializer.ElementRunBounded | EDennis.JsonUtils/EDennis.JsonUtils/SafeJsonSerializer.cs:139-149 | an element's output is balanced and within the depth bound |
| DepthKeyedSerializer.SafeJsonSerializer.constructor | EDennis.JsonUtils/EDennis.JsonUtils/SafeJsonSerializer.cs:17-40 | the given writer, an empty dictionary and ignore set, maxDepth 3, depth 1 |
| DepthKeyedSerializer.SafeJsonSerializer.Serialize | EDennis.JsonUtils/EDennis.JsonUtils/SafeJsonSerializer.cs:62-92 | sets maxDepth; a null names array fails with NullReference before the root is looked at and writes nothing; otherwise the names join the ignore set, a null root fails with NullReference, and every root case of SerializeRoot holds with the new settings |
| DepthKeyedSerializer.SafeJsonSerializer.IgnoreNames | EDennis.JsonUtils/EDennis.JsonUtils/SafeJsonSerializer.cs:67-69 | the ignore set becomes the old set plus every name of the array |
| DepthKeyedSerializer.SafeJsonSerializer.SerializeRoot | EDennis.JsonUtils/EDennis.JsonUtils/SafeJsonSerializer.cs:71-88 | a dictionary, or an enumerable that does not cast to an enumerable of objects, is one raw value: `FromObjectFailed` with nothing written when JToken.FromObject throws on it, otherwise written exactly when the writer accepts a value; a castable enumerable is its ListRun or ends in the raw value when the list failed, and when it is not skipped (empty, too deep, or it or an element registered at another depth) it is an ArrayBody or ends in the raw value; any other root is its ObjectRun, and a plain object not suppressed by registration is registered and written as an ObjectBody |
| DepthKeyedSerializer.SafeJsonSerializer.WriteRaw | EDennis.JsonUtils/EDennis.JsonUtils/SafeJsonSerializer.cs:72-73 | fails with `FromObjectFailed` when JToken.FromObject throws on the value (a reference loop, say); otherwise appends one raw value exactly when the writer accepts a value; every failure writes nothing |
| DepthKeyedSerializer.SafeJsonSerializer.SerializeList | EDennis.JsonUtils/EDennis.JsonUtils/SafeJsonSerializer.cs:103-153 | an empty, too deep or ignored list, or one that is or holds an object registered at another depth, writes nothing and changes nothing; otherwise on success the tokens are an ArrayBody: the name, `[`, one ElementRun per element in order, `]`, with depth restored; a null element fails; registrations only grow, first write wins, new ones within maxDepth |
| DepthKeyedSerializer.SafeJsonSerializer.AnyRegisteredElsewhere | EDennis.JsonUtils/EDennis.JsonUtils/SafeJsonSerializer.cs:121-124 | true exactly when some element is an object registered at a depth other than the current one |
| DepthKeyedSerializer.SafeJsonSerializer.WriteArray | EDennis.JsonUtils/EDennis.JsonUtils/SafeJsonSerializer.cs:127-152 | on success depth restored and the appended tokens are an ArrayBody: the name, `[`, one ElementRun per element in order, `]`; a null element fails |
| DepthKeyedSerializer.SafeJsonSerializer.WriteElements | EDennis.JsonUtils/EDennis.JsonUtils/SafeJsonSerializer.cs:139-149 | on success the appended tokens are the concatenation of one ElementRun per element, in order, with depth and open containers as before; a null element fails; registrations only grow, first write wins |
| DepthKeyedSerializer.SafeJsonSerializer.SerializeObject | EDennis.JsonUtils/EDennis.JsonUtils/SafeJsonSerializer.cs:176-291 | a null, too deep or ignored object writes nothing and registers nothing; a navigable object registered at another depth writes nothing and registers nothing; otherwise it is registered at the current depth if new and, on success, written as an ObjectBody (name, `{`, one PropertyRun per property in order, `}`); a bad format fails before anything is written; any success is an ObjectRun; depth restored |
| DepthKeyedSerializer.SafeJsonSerializer.WriteElement | EDennis.JsonUtils/EDennis.JsonUtils/SafeJsonSerializer.cs:140-148 | a null element fails; a simple element is its one value token; any other is its ObjectRun without a name |
| DepthKeyedSerializer.SafeJsonSerializer.SerializeNode | EDennis.JsonUtils/EDennis.JsonUtils/SafeJsonSerializer.cs:189-291 | a navigable object registered at another depth writes nothing; otherwise it is registered (at the current depth when new) and, on success, written as an ObjectBody; a bad format fails and writes nothing; any success is the NodeRun: a primitive-like value by its text, a tagged type by its tagged property, else a TrackedRun |
| DepthKeyedSerializer.SafeJsonSerializer.WriteTracked | EDennis.JsonUtils/EDennis.JsonUtils/SafeJsonSerializer.cs:229-291 | an object with navigation properties registered at another depth writes nothing and registers nothing; otherwise it is registered, at the current depth when new, and on success written as an ObjectBody of its properties |
| DepthKeyedSerializer.SafeJsonSerializer.WriteObject | EDennis.JsonUtils/EDennis.JsonUtils/SafeJsonSerializer.cs:238-289 | on success depth restored and the appended tokens are an ObjectBody: the name, `{`, one PropertyRun per property in order, `}`; registrations only grow |
| DepthKeyedSerializer.SafeJsonSerializer.WriteSimpleValue | EDennis.JsonUtils/EDennis.JsonUtils/SafeJsonSerializer.cs:204-223 | on success the tokens are the name and then the value of the first property the tag names, with the open containers as before; a tag naming no property fails with UndefinedValueProperty(type name, name) once the name is written, and with the name's rejection when the writer refuses it; a missing name where the writer expects one fails; never an ignored name |
| DepthKeyedSerializer.SafeJsonSerializer.WriteProperties | EDennis.JsonUtils/EDennis.JsonUtils/SafeJsonSerializer.cs:253-287 | on success the appended tokens are the concatenation of one PropertyRun per property, in order, with depth and open containers as before; registrations only grow within maxDepth; never an ignored name |
| DepthKeyedSerializer.SafeJsonSerializer.WriteProperty | EDennis.JsonUtils/EDennis.JsonUtils/SafeJsonSerializer.cs:255-286 | on success the appended tokens are the PropertyRun of the property: a non-null list or array its ListRun when it is an IList (nothing otherwise), a non-null object its ObjectRun, a formatted plain property its name and text, any other plain property its name and value; a plain property passes exactly when it is formatted, null or of a type WriteValue accepts; never an ignored name |
| DepthKeyedSerializer.SafeJsonSerializer.WriteListProperty | EDennis.JsonUtils/EDennis.JsonUtils/SafeJsonSerializer.cs:255-257 | a collection that is not an IList writes nothing; an IList is written as its ListRun under its name, and as an ArrayBody when the list is not skipped |
| StaticSerializer.GetJsonValueKind | EDennis.JsonUtils/EDennis.JsonUtils/SafeJsonSerializerStatic.cs:148-177 | total: Null exactly for null, True/False by the boolean's value, Undefined only for types with no properties that are not enumerable |
| StaticSerializer.IsContainerType | EDennis.JsonUtils/EDennis.JsonUtils/SafeJsonSerializerStatic.cs:180-204 | true for arrays, dictionaries, enumerables, nullable types and `object`; false for numbers, booleans and string-like types |
| StaticSerializer.ContainerTypeMatchesKind | EDennis.JsonUtils/EDennis.JsonUtils/SafeJsonSerializerStatic.cs:148-204 | for any runtime type but `object`, IsContainerType holds exactly when the classifier says Array or Object |
| StaticSerializer.DictionaryIsObject | EDennis.JsonUtils/EDennis.JsonUtils/SafeJsonSerializerStatic.cs:150-156 | a dictionary is enumerable, yet classified as an object |
| StaticSerializer.SByteAndCharAreStrings | EDennis.JsonUtils/EDennis.JsonUtils/SafeJsonSerializerStatic.cs:222-234 | sbyte and char are not numbers and are written as strings |
| StaticSerializer.SerializeValue | EDennis.JsonUtils/EDennis.JsonUtils/SafeJsonSerializerStatic.cs:26-125 | too deep or ignored: nothing written or registered; a container already in the hash list: nothing at all, not even its name; otherwise a container's id is appended to the list; a null container-typed property writes nothing; every passing call appends a `ValueRun` of the grammar at the writer's depth, and a container that is not suppressed is its `NamedRun`, both stated with the returned `retried` flag, which is true only when an array's cast path failed and its reflection path was taken after it; without such a retry the writer ends at the depth it started at |
| StaticSerializer.WriteNamedValue | EDennis.JsonUtils/EDennis.JsonUtils/SafeJsonSerializerStatic.cs:43-124 | the name and then the value body: on success the appended tokens are a `NamedRun` (with `retries` only when an array's cast path failed on the way); a scalar is the name and its one token (or the overflow error when the writer is ready); a container is bracketed by its start and end; a root Undefined writes nothing; an array with neither cast nor generic argument fails |
| StaticSerializer.WriteValue | EDennis.JsonUtils/EDennis.JsonUtils/SafeJsonSerializerStatic.cs:49-124 | the value body after the name: an enum is its name, a scalar its one token (or the overflow error), a container its `ArrayRun` or `ObjectRun` (with `retries` only when a cast path failed on the way); non-containers leave the hash list unchanged |
| StaticSerializer.WriteScalarValue | EDennis.JsonUtils/EDennis.JsonUtils/SafeJsonSerializerStatic.cs:55-83 | Undefined without a name writes nothing, Undefined with one writes null; a number whose decimal text overflows fails and writes nothing; anything else is one token |
| StaticSerializer.WriteToken | EDennis.JsonUtils/EDennis.JsonUtils/SafeJsonSerializerStatic.cs:62-83 | passes exactly when the writer accepts a value and then appends exactly the given scalar token; otherwise fails and writes nothing |
| StaticSerializer.WriteArrayValue | EDennis.JsonUtils/EDennis.JsonUtils/SafeJsonSerializerStatic.cs:84-102 | on success the tokens are `[`, the elements as an `ArrayItemsRun` one level deeper, and `]`, with the `retried` flag of the elements; an array with neither cast nor generic argument fails |
| StaticSerializer.WriteArrayItems | EDennis.JsonUtils/EDennis.JsonUtils/SafeJsonSerializerStatic.cs:86-99 | the cast path, or the reflection path after it fails: when the first enumeration passes, or the array does not cast, the elements are one `EnumRun` and `retried` is what that enumeration returned; only when a cast path failed and the reflection path then passed is `retried` true, and the tokens are the failed attempt's followed by a full enumeration; without the cast and without a generic argument, the array fails |
| StaticSerializer.WriteObjectValue | EDennis.JsonUtils/EDennis.JsonUtils/SafeJsonSerializerStatic.cs:103-121 | on success the tokens are `{`, one `ValueRun` per dictionary entry or per property, each at the depth the runs before it left, and `}` (an `ObjectRun`), retried only when some member's run was |
| StaticSerializer.WriteMembers | EDennis.JsonUtils/EDennis.JsonUtils/SafeJsonSerializerStatic.cs:107-118 | a dictionary writes its entries, any other object its properties: one run per member, in order, as `SlotRuns`, retried only when some member's run was |
| StaticSerializer.WriteEntries | EDennis.JsonUtils/EDennis.JsonUtils/SafeJsonSerializerStatic.cs:107-110 | one run per entry, in order, each the `ValueRun` of the entry's value under its key, retried only when some entry's run was |
| StaticSerializer.WriteProps | EDennis.JsonUtils/EDennis.JsonUtils/SafeJsonSerializerStatic.cs:111-118 | one run per property, in order, each the `ValueRun` of its value under its name, typed by whether its declared type is a container, retried only when some property's run was |
| StaticSerializer.SerializeEnumerable | EDennis.JsonUtils/EDennis.JsonUtils/SafeJsonSerializerStatic.cs:127-145 | the elements in input order, or with text ordering in the order of the texts each serializes to alone (an `EnumRun`) |
| StaticSerializer.SerializeSlot | EDennis.JsonUtils/EDennis.JsonUtils/SafeJsonSerializerStatic.cs:110-115 | one call of the protected Serialize inside a loop: its `ValueRun`, with that call's `retried` flag |
| StaticSerializer.WriteItems | EDennis.JsonUtils/EDennis.JsonUtils/SafeJsonSerializerStatic.cs:139-144 | one run per element, in order, each the `ValueRun` of the element under no name, retried only when some element's run was |
| StaticSerializer.TextKeys | EDennis.JsonUtils/EDennis.JsonUtils/SafeJsonSerializerStatic.cs:128-137 | on success one text per element, paired with that element, in order, all texts distinct (an equal text makes the dictionary's Add fail), each the text of the element serialized alone (`TextKeyed`), retried only when some element's text was |
| StaticSerializer.ElementText | EDennis.JsonUtils/EDennis.JsonUtils/SafeJsonSerializerStatic.cs:131-135 | the text of the element serialized alone on a fresh writer and hash list with the depth that remains (`ElementTextOf`, with that serialization's `retried` flag); a scalar element within that depth renders as its single token |
| StaticSerializer.Serialize | EDennis.JsonUtils/EDennis.JsonUtils/SafeJsonSerializerStatic.cs:15-23 | a negative maxDepth writes nothing; never an ignored name; a scalar gives its one token (or the overflow error); a root Undefined gives nothing; a container is bracketed by its start and end tokens; every success is the `NamedRun` of the root at depth 0 with the names to ignore; when no array's cast path failed on the way (`retried` false) the tokens are balanced and nest at most maxDepth + 1 containers |
| StaticSerializer.ValueRunBounded | EDennis.JsonUtils/EDennis.JsonUtils/SafeJsonSerializerStatic.cs:26-28 | every run the grammar allows without a retried array is balanced and nests at most maxDepth + 1 - d containers |
| StaticSerializer.ValueBodyBounded | EDennis.JsonUtils/EDennis.JsonUtils/SafeJsonSerializerStatic.cs:49-124 | every value body without a retried array is balanced and within the levels left |
| StaticSerializer.ArrayRunBounded | EDennis.JsonUtils/EDennis.JsonUtils/SafeJsonSerializerStatic.cs:84-102 | an array run is balanced and opens at most the levels left |
| StaticSerializer.EnumRunBounded | EDennis.JsonUtils/EDennis.JsonUtils/SafeJsonSerializerStatic.cs:127-145 | the elements of an enumeration, in either order, are balanced and within the levels left |
| StaticSerializer.ItemsRunBounded | EDennis.JsonUtils/EDennis.JsonUtils/SafeJsonSerializerStatic.cs:139-144 | a run of elements is balanced and within the levels left |
| StaticSerializer.ObjectRunBounded | EDennis.JsonUtils/EDennis.JsonUtils/SafeJsonSerializerStatic.cs:103-121 | an object run is balanced and opens at most the levels left |
| StaticSerializer.SlotRunsBounded | EDennis.JsonUtils/EDennis.JsonUtils/SafeJsonSerializerStatic.cs:107-118 | every member run of a loop without retries starts at the loop's depth, is balanced and within the levels left |
| StaticSerializer.TextOrderedRun | EDennis.JsonUtils/EDennis.JsonUtils/SafeJsonSerializerStatic.cs:128-140 | with text ordering the elements come out as a permutation of the keyed elements, sorted by their texts |
| KeySort.InsertByKey | EDennis.JsonUtils/EDennis.JsonUtils/SafeJsonSerializerStatic.cs:138 | the entries of the list plus the inserted one, as a multiset |
| KeySort.SortByKeyElements | EDennis.JsonUtils/EDennis.JsonUtils/SafeJsonSerializerStatic.cs:138 | sorting by key is a permutation of the entries |
| KeySort.SortByKeySorted | EDennis.JsonUtils/EDennis.JsonUtils/SafeJsonSerializerStatic.cs:138 | the ordered entries are in ascending key order under the comparer |
| KeySort.SortByKeyDistinct | EDennis.JsonUtils/TestApi.Tests/Jxml/JsonSorter.cs:56 | with distinct keys the result is strictly ascending, as a SortedDictionary iterates |
| KeySort.SortByKeyOfSorted | EDennis.JsonUtils/TestApi.Tests/Jxml/JsonSorter.cs:86-91 | entries already in key order stay as they are |
| NestedSafeJsonConverter.Properties | EDennis.SafeJsonConverter/EDennis.SafeJsonConverter/SafeJsonConverter.cs:309-354 | one descriptor per property; succeeds exactly when every format renders; otherwise BadFormat for the first failing one |
| NestedSafeJsonConverter.DescribeAllAt | EDennis.SafeJsonConverter/EDennis.SafeJsonConverter/SafeJsonConverter.cs:309-354 | one descriptor per property, the i-th built from the i-th property and its format |
| NestedSafeJsonConverter.DescribedValid | EDennis.SafeJsonConverter/EDennis.SafeJsonConverter/SafeJsonConverter.cs:309-354 | every described property value lies in the heap |
| NestedSafeJsonConverter.ObjectRunBounded | EDennis.SafeJsonConverter/EDennis.SafeJsonConverter/SafeJsonConverter.cs:239-295 | every output an object can produce at depth d is balanced and nests at most maxDepth + 1 - d containers deep |
| NestedSafeJsonConverter.ObjectBodyBounded | EDennis.SafeJsonConverter/EDennis.SafeJsonConverter/SafeJsonConverter.cs:262-293 | an object body is balanced and within the same depth bound |
| NestedSafeJsonConverter.PropertyRunBounded | EDennis.SafeJsonConverter/EDennis.SafeJsonConverter/SafeJsonConverter.cs:274-291 | a property's output is balanced and within the depth bound |
| NestedSafeJsonConverter.ListRunBounded | EDennis.SafeJsonConverter/EDennis.SafeJsonConverter/SafeJsonConverter.cs:191-228 | every output a list can produce at depth d is balanced and nests at most maxDepth + 1 - d containers deep |
| NestedSafeJsonConverter.SafeJsonSerializer.constructor | EDennis.SafeJsonConverter/EDennis.SafeJsonConverter/SafeJsonConverter.cs:117-151 | the given writer, empty dictionary and ignore set, maxDepth 3, depth 0 |
| NestedSafeJsonConverter.SafeJsonSerializer.Serialize | EDennis.SafeJsonConverter/EDennis.SafeJsonConverter/SafeJsonConverter.cs:162-180 | sets maxDepth; a null names array or a null root fails with NullReference and writes nothing; otherwise the names join the ignore set and every root case of SerializeRoot holds with the new settings |
| NestedSafeJsonConverter.SafeJsonSerializer.IgnoreNames | EDennis.SafeJsonConverter/EDennis.SafeJsonConverter/SafeJsonConverter.cs:167-169 | the ignore set becomes the old set plus every name of the array |
| NestedSafeJsonConverter.SafeJsonSerializer.SerializeRoot | EDennis.SafeJsonConverter/EDennis.SafeJsonConverter/SafeJsonConverter.cs:171-176 | an ICollection that is not an IList writes nothing, as `obj as IList` is null; an IList root is its ListRun, and an ArrayBody when neither the list nor an element is skipped or registered at another depth; anything else is its ObjectRun, and when not skipped it is registered and written as an ObjectBody |
| NestedSafeJsonConverter.SafeJsonSerializer.ScanElements | EDennis.SafeJsonConverter/EDennis.SafeJsonConverter/SafeJsonConverter.cs:205-212 | NullElement exactly when the scan reaches a null element; Suppressed exactly when it first reaches an element registered at another depth |
| NestedSafeJsonConverter.SafeJsonSerializer.SerializeList | EDennis.SafeJsonConverter/EDennis.SafeJsonConverter/SafeJsonConverter.cs:191-228 | skipped lists and lists with an element registered at another depth write nothing and change nothing; a null element fails with NullReference and writes nothing; otherwise on success the tokens are an ArrayBody (name, `[`, one ObjectRun per element in order, `]`) with depth restored; new registrations sit one level deeper, within maxDepth |
| NestedSafeJsonConverter.SafeJsonSerializer.WriteArray | EDennis.SafeJsonConverter/EDennis.SafeJsonConverter/SafeJsonConverter.cs:215-227 | on success depth restored and the appended tokens are an ArrayBody: the name, `[`, one ObjectRun per element in order, `]` |
| NestedSafeJsonConverter.SafeJsonSerializer.WriteElements | EDennis.SafeJsonConverter/EDennis.SafeJsonConverter/SafeJsonConverter.cs:223-224 | on success the appended tokens are the concatenation of one ObjectRun per element, in order, with depth and open containers as before; never an ignored name |
| NestedSafeJsonConverter.SafeJsonSerializer.WriteElement | EDennis.SafeJsonConverter/EDennis.SafeJsonConverter/SafeJsonConverter.cs:224 | on success the appended tokens are the element's ObjectRun without a name |
| NestedSafeJsonConverter.SafeJsonSerializer.SerializeObject | EDennis.SafeJsonConverter/EDennis.SafeJsonConverter/SafeJsonConverter.cs:239-295 | null, too deep, ignored or registered at another depth (unconditionally): nothing written, nothing registered; otherwise it is registered (at the current depth when new) and on success written as an ObjectBody of its described properties (name, `{`, one PropertyRun per property, `}`), depth restored; a bad format fails; any success is an ObjectRun |
| NestedSafeJsonConverter.SafeJsonSerializer.WriteObject | EDennis.SafeJsonConverter/EDennis.SafeJsonConverter/SafeJsonConverter.cs:262-293 | on success depth restored, every format renders, and the appended tokens are an ObjectBody of the described properties; a bad format fails |
| NestedSafeJsonConverter.SafeJsonSerializer.WriteDescribed | EDennis.SafeJsonConverter/EDennis.SafeJsonConverter/SafeJsonConverter.cs:272-291 | a bad format fails; on success the appended tokens are one PropertyRun per described property, in order |
| NestedSafeJsonConverter.SafeJsonSerializer.WriteProperties | EDennis.SafeJsonConverter/EDennis.SafeJsonConverter/SafeJsonConverter.cs:274-291 | on success the appended tokens are the concatenation of one PropertyRun per property, in order, with depth and open containers as before; never an ignored name |
| NestedSafeJsonConverter.SafeJsonSerializer.WriteProperty | EDennis.SafeJsonConverter/EDennis.SafeJsonConverter/SafeJsonConverter.cs:276-290 | an ignored name writes nothing; on success the appended tokens are the PropertyRun: a non-null collection its ListRun when it is an IList (nothing otherwise), a non-null object its ObjectRun, a plain property (arrays included) its name and text or value; a plain property passes exactly when it is formatted, null or of a type WriteValue accepts |
| NestedSafeJsonConverter.SafeJsonSerializer.WriteListProperty | EDennis.SafeJsonConverter/EDennis.SafeJsonConverter/SafeJsonConverter.cs:276-278 | an ignored name or a collection that is not an IList writes nothing; an IList is written as its ListRun under its name, and as an ArrayBody when neither the list nor an element is skipped or registered at another depth |
| NestedSafeJsonConverter.SafeJsonConverter.WithSettings | EDennis.SafeJsonConverter/EDennis.SafeJsonConverter/SafeJsonConverter.cs:31-34 | the given depth and names to ignore |
| NestedSafeJsonConverter.SafeJsonConverter.WithMaxDepth | EDennis.SafeJsonConverter/EDennis.SafeJsonConverter/SafeJsonConverter.cs:41-43 | the given depth, names to ignore left unset |
| NestedSafeJsonConverter.SafeJsonConverter.constructor | EDennis.SafeJsonConverter/EDennis.SafeJsonConverter/SafeJsonConverter.cs:51-54 | MaxDepth 99 and an empty ignore list |
| NestedSafeJsonConverter.SafeJsonConverter.CanRead | EDennis.SafeJsonConverter/EDennis.SafeJsonConverter/SafeJsonConverter.cs:98-100 | true |
| NestedSafeJsonConverter.SafeJsonConverter.CanConvert | EDennis.SafeJsonConverter/EDennis.SafeJsonConverter/SafeJsonConverter.cs:107-109 | true for every type |
| NestedSafeJsonConverter.SafeJsonConverter.WriteJson | EDennis.SafeJsonConverter/EDennis.SafeJsonConverter/SafeJsonConverter.cs:75-78 | a fresh serializer with this converter's MaxDepth and names to ignore, at depth 0: an unset ignore list or null value fails with NullReference and writes nothing; an ICollection that is not an IList writes nothing; an IList gives its `ListRun`, and its `ArrayBody` when not empty and within MaxDepth; any other value gives its `ObjectRun`, and its `ObjectBody` within MaxDepth; never a name to ignore |
| JsonUtilsConverter.SafeJsonConverter.WithDepthAndIgnore | EDennis.JsonUtils/EDennis.JsonUtils/SafeJsonConverter.cs:38-41 | the given depth and names; ModuloTransform unset |
| JsonUtilsConverter.SafeJsonConverter.WithDepthIgnoreAndModulo | EDennis.JsonUtils/EDennis.JsonUtils/SafeJsonConverter.cs:51-55 | all three settings as given |
| JsonUtilsConverter.SafeJsonConverter.WithDepth | EDennis.JsonUtils/EDennis.JsonUtils/SafeJsonConverter.cs:63-66 | the given depth, an empty ignore list, ModuloTransform unset |
| JsonUtilsConverter.SafeJsonConverter.WithIgnore | EDennis.JsonUtils/EDennis.JsonUtils/SafeJsonConverter.cs:74-78 | DEFAULT_MAXDEPTH (99), the given names, an empty modulo map |
| JsonUtilsConverter.SafeJsonConverter.WithModulo | EDennis.JsonUtils/EDennis.JsonUtils/SafeJsonConverter.cs:87-91 | DEFAULT_MAXDEPTH, an empty ignore list, the given modulo map |
| JsonUtilsConverter.SafeJsonConverter.WithIgnoreAndModulo | EDennis.JsonUtils/EDennis.JsonUtils/SafeJsonConverter.cs:101-105 | DEFAULT_MAXDEPTH, the given names and modulo map |
| JsonUtilsConverter.SafeJsonConverter.constructor | EDennis.JsonUtils/EDennis.JsonUtils/SafeJsonConverter.cs:113-117 | MaxDepth 99, an empty ignore list, an empty modulo map |
| JsonUtilsConverter.SafeJsonConverter.WriteJson | EDennis.JsonUtils/EDennis.JsonUtils/SafeJsonConverter.cs:150-153 | a fresh depth-keyed serializer with this converter's MaxDepth and names to ignore, at depth 1: an unset ignore list or null value fails and writes nothing; a dictionary or uncastable enumerable is one raw value, or `FromObjectFailed` when JToken.FromObject throws on it; a castable enumerable gives its `ListRun` (its `ArrayBody` when not empty and MaxDepth is at least 1) or ends in the raw value; any other value gives its `ObjectRun`, and a plain object within MaxDepth its `ObjectBody`; never a name to ignore |
| JsonUtilsConverter.SafeJsonConverter.ReadJson | EDennis.JsonUtils/EDennis.JsonUtils/SafeJsonConverter.cs:163-165 | always fails with NotImplemented |
| JsonUtilsConverter.SafeJsonConverter.CanRead | EDennis.JsonUtils/EDennis.JsonUtils/SafeJsonConverter.cs:170-172 | false |
| JsonUtilsConverter.SafeJsonConverter.CanConvert | EDennis.JsonUtils/EDennis.JsonUtils/SafeJsonConverter.cs:179-181 | true for every type |
| ModuloRule.ApplyModulo | EDennis.JsonUtils/EDennis.JsonUtils/SafeJsonConverter.cs:357-358 | a configured name gives a remainder below its modulus, and a value already below the modulus unchanged; a null name fails |
| ModuloRule.ModuloAsWritten | EDennis.JsonUtils/EDennis.JsonUtils/SafeJsonConverter.cs:355-361 | the commented rule with C#'s precedence; a null name fails |
| ModuloRule.ModuloAsWrittenRejectsUnconfiguredULong | EDennis.JsonUtils/EDennis.JsonUtils/SafeJsonConverter.cs:357 | a ulong property with no modulus makes the dictionary lookup fail |
| ModuloRule.Modulo | EDennis.JsonUtils/EDennis.JsonUtils/SafeJsonConverter.cs:357 | the intended rule never fails the lookup; an unconfigured name is left as it is |
| ModuloRule.ModuloAgreesAsWritten | EDennis.JsonUtils/EDennis.JsonUtils/SafeJsonConverter.cs:355-361 | both rules agree on every configured name and every type but ulong |
| ObjectExtensions.DefaultSettings | EDennis.JsonUtils/TestApi.Tests/ObjectExtensions.cs:64-67 | the settings of the default converter |
| ObjectExtensions.DepthAndIgnoreSettings | EDennis.JsonUtils/TestApi.Tests/ObjectExtensions.cs:97-102 | the settings with the given depth and names |
| ObjectExtensions.DepthSettings | EDennis.JsonUtils/TestApi.Tests/ObjectExtensions.cs:131-136 | the settings with the given depth |
| ObjectExtensions.CheckDepth | EDennis.JsonUtils/TestApi.Tests/ObjectExtensions.cs:673-686 | fails exactly for a null object, or an enumerable of a class element type with maxDepth 1 |
| ObjectExtensions.CheckDepthOnlyRefusesOne | EDennis.JsonUtils/TestApi.Tests/ObjectExtensions.cs:673-686 | every non-null object passes at any depth other than 1 |
| ObjectExtensions.SortJson | EDennis.JsonUtils/TestApi.Tests/ObjectExtensions.cs:70-71 | the text sort of JsonSorter |
| ObjectExtensions.ComparedTexts | EDennis.JsonUtils/TestApi.Tests/ObjectExtensions.cs:62-75 | both objects serialized with the same settings, then sorted when array order is ignored |
| ObjectExtensions.Compare | EDennis.JsonUtils/TestApi.Tests/ObjectExtensions.cs:62-75 | true exactly when the two compared texts are equal |
| ObjectExtensions.IsEqual | EDennis.JsonUtils/TestApi.Tests/ObjectExtensions.cs:62-75 | Compare with the default settings, no depth check |
| ObjectExtensions.IsEqualWithDepthAndIgnore | EDennis.JsonUtils/TestApi.Tests/ObjectExtensions.cs:92-110 | the depth of obj1 alone is checked, before anything is serialized; then Compare |
| ObjectExtensions.IsEqualWithDepth | EDennis.JsonUtils/TestApi.Tests/ObjectExtensions.cs:126-144 | the same with the depth alone |
| ObjectExtensions.IsEqualWithIgnore | EDennis.JsonUtils/TestApi.Tests/ObjectExtensions.cs:161-177 | the default depth and no depth check |
| ObjectExtensions.CompareReflexive | EDennis.JsonUtils/TestApi.Tests/ObjectExtensions.cs:62-75 | an object is equal to itself whenever its text can be produced |
| ObjectExtensions.CompareSymmetric | EDennis.JsonUtils/TestApi.Tests/ObjectExtensions.cs:62-75 | swapping the objects does not change the answer |
| ObjectExtensions.SortingKeepsEquality | EDennis.JsonUtils/TestApi.Tests/ObjectExtensions.cs:69-72 | ignoring array order never separates objects with equal texts |
| ObjectExtensions.IsSame | EDennis.JsonUtils/TestApi.Tests/ObjectExtensions.cs:46-49 | equal identities and IsEqual; null on either side fails |
| ObjectExtensions.Report | EDennis.JsonUtils/TestApi.Tests/ObjectExtensions.cs:211 | the side-by-side comparison with obj2's text on the left as EXPECTED and obj1's as ACTUAL |
| ObjectExtensions.CompareOrWrite | EDennis.JsonUtils/TestApi.Tests/ObjectExtensions.cs:195-214 | the comparison's answer, and a report exactly when it is false |
| ObjectExtensions.IsEqualOrWrite | EDennis.JsonUtils/TestApi.Tests/ObjectExtensions.cs:195-214 | with the default settings |
| ObjectExtensions.IsEqualOrWriteWithDepthAndIgnore | EDennis.JsonUtils/TestApi.Tests/ObjectExtensions.cs:237-261 | the depth check first, then as above |
| ObjectExtensions.IsEqualOrWriteWithDepth | EDennis.JsonUtils/TestApi.Tests/ObjectExtensions.cs:282-307 | the depth check first, then as above |
| ObjectExtensions.IsEqualOrWriteWithIgnore | EDennis.JsonUtils/TestApi.Tests/ObjectExtensions.cs:330-352 | no depth check |
| ObjectExtensions.IsEqualOrWriteReportsIsEqual | EDennis.JsonUtils/TestApi.Tests/ObjectExtensions.cs:195-214 | IsEqualOrWrite answers what IsEqual answers and writes exactly when the texts differ, expected text on the left |
| ObjectExtensions.Juxtaposed | EDennis.JsonUtils/TestApi.Tests/ObjectExtensions.cs:368-376 | the side-by-side comparison, obj1 on the left |
| ObjectExtensions.Juxtapose | EDennis.JsonUtils/TestApi.Tests/ObjectExtensions.cs:368-376 | with the default settings |
| ObjectExtensions.JuxtaposeWithDepthAndIgnore | EDennis.JsonUtils/TestApi.Tests/ObjectExtensions.cs:395-408 | the depth check first |
| ObjectExtensions.JuxtaposeWithDepth | EDennis.JsonUtils/TestApi.Tests/ObjectExtensions.cs:424-437 | the depth check first |
| ObjectExtensions.JuxtaposeWithIgnore | EDennis.JsonUtils/TestApi.Tests/ObjectExtensions.cs:455-466 | no depth check |
| ObjectExtensions.DepthOverloadsIgnoreNothing | EDennis.JsonUtils/TestApi.Tests/ObjectExtensions.cs:92-144 | the depth-only IsEqual, IsEqualOrWrite and Juxtapose overloads answer what their depth-and-ignore forms answer with an empty ignore list |
| ObjectExtensions.ToJsonString | EDennis.JsonUtils/TestApi.Tests/ObjectExtensions.cs:476-479 | the serialized text with the default settings |
| ObjectExtensions.ToJsonStringWithDepthAndIgnore | EDennis.JsonUtils/TestApi.Tests/ObjectExtensions.cs:492-498 | the text, with no depth check |
| ObjectExtensions.ToJsonStringWithDepth | EDennis.JsonUtils/TestApi.Tests/ObjectExtensions.cs:510-517 | the depth check, then the text |
| ObjectExtensions.ToJsonStringWithIgnore | EDennis.JsonUtils/TestApi.Tests/ObjectExtensions.cs:529-534 | the text with the default depth |
| ObjectExtensions.OnlyToJsonStringSkipsTheDepthCheck | EDennis.JsonUtils/TestApi.Tests/ObjectExtensions.cs:492-498 | a collection of class objects at depth 1 gives a text from ToJsonString where IsEqual and Juxtapose fail |
| ObjectExtensions.Properties | EDennis.JsonUtils/TestApi.Tests/ObjectExtensions.cs:647-650 | the properties of an object token; any other token fails the cast |
| ObjectExtensions.NormalizePath | EDennis.JsonUtils/TestApi.Tests/ObjectExtensions.cs:565 | every `\` and `/` becomes `.`, everything else stays |
| ObjectExtensions.NormalizePathIdempotent | EDennis.JsonUtils/TestApi.Tests/ObjectExtensions.cs:565 | no separator is left, and normalizing twice changes nothing |
| ObjectExtensions.SelectIn | EDennis.JsonUtils/TestApi.Tests/ObjectExtensions.cs:565-569 | the token at the path, or a FormatException naming the file and the path |
| ObjectExtensions.FromJsonPath | EDennis.JsonUtils/TestApi.Tests/ObjectExtensions.cs:561-576 | the token at the normalized path of the file; the message names the path as given |
| ObjectExtensions.FromTokenPath | EDennis.JsonUtils/TestApi.Tests/ObjectExtensions.cs:632-639 | the token at the normalized path, failing when it is missing |
| ObjectExtensions.FirstJsonIsFirst | EDennis.JsonUtils/TestApi.Tests/ObjectExtensions.cs:592-596 | the first ".json" from an index on, none skipped |
| ObjectExtensions.NoCutsIffNoJson | EDennis.JsonUtils/TestApi.Tests/ObjectExtensions.cs:592-594 | no match exactly when the text holds no ".json" |
| ObjectExtensions.SplitPieces | EDennis.JsonUtils/TestApi.Tests/ObjectExtensions.cs:596 | Regex.Split's array: pieces with their captured separators, then the remainder |
| ObjectExtensions.CutsRejoin | EDennis.JsonUtils/TestApi.Tests/ObjectExtensions.cs:596 | putting the matches back between the pieces gives the text |
| ObjectExtensions.CutsLeftmost | EDennis.JsonUtils/TestApi.Tests/ObjectExtensions.cs:596 | the matches are leftmost: no piece before a match holds ".json" |
| ObjectExtensions.FromJsonFileObjectPath | EDennis.JsonUtils/TestApi.Tests/ObjectExtensions.cs:588-618 | refused without ".json"; the file is the first piece plus ".json"; an object path is looked up only when the split gives three parts, and it is the third |
| ObjectExtensions.CombinedPathLooksUpObject | EDennis.JsonUtils/TestApi.Tests/ObjectExtensions.cs:596-611 | "file.json/path" does what the two-argument FromJsonPath does on that file and path |
| ObjectExtensions.FilePathReadsWholeFile | EDennis.JsonUtils/TestApi.Tests/ObjectExtensions.cs:596-601 | "file.json" alone gives the whole file's token |
| JsonSorter.ChildType | EDennis.JsonUtils/TestApi.Tests/Jxml/JsonSorter.cs:103-109 | the first child's type, Null without children |
| JsonSorter.ChildIsContainer | EDennis.JsonUtils/TestApi.Tests/Jxml/JsonSorter.cs:111-118 | true exactly when some child is an object or an array |
| JsonSorter.PropertyChildScans | EDennis.JsonUtils/TestApi.Tests/Jxml/JsonSorter.cs:103-118 | for a property both scans look at its value alone |
| JsonSorter.Sort | EDennis.JsonUtils/TestApi.Tests/Jxml/JsonSorter.cs:38-94 | the in-place sort computes the result and new tree of the specification function, leaving non-containers and properties of non-containers unchanged |
| JsonSorter.KeyChildren | EDennis.JsonUtils/TestApi.Tests/Jxml/JsonSorter.cs:59-65 | the loop over the children computes the specification pass: each child sorted and keyed by its text, failing on an equivalent key |
| JsonSorter.PropertyValue | EDennis.JsonUtils/TestApi.Tests/Jxml/JsonSorter.cs:68-83 | a container-valued property gets its value's sorted form |
| JsonSorter.ReAdd | EDennis.JsonUtils/TestApi.Tests/Jxml/JsonSorter.cs:86-91 | all children removed, then the dictionary's values added in key order |
| JsonSorter.SortSucceedsIff | EDennis.JsonUtils/TestApi.Tests/Jxml/JsonSorter.cs:56-65 | sorting a container succeeds exactly when every child sorts and no two children get equivalent keys |
| JsonSorter.SortIdempotent | EDennis.JsonUtils/TestApi.Tests/Jxml/JsonSorter.cs:38-94 | sorting twice gives what sorting once gives |
| JsonSorter.SortKeepsShape | EDennis.JsonUtils/TestApi.Tests/Jxml/JsonSorter.cs:38-94 | sorting keeps a token's kind and a property's name |
| JsonSorter.SortContainer | EDennis.JsonUtils/TestApi.Tests/Jxml/JsonSorter.cs:56-91 | a sorted container keeps its kind and number of children, holds the sorted children of the input as a permutation, in strictly ascending order of their texts |
| JsonSorter.RepeatedElementFails | EDennis.JsonUtils/TestApi.Tests/Jxml/JsonSorter.cs:64 | two equal elements in an array make the sort fail |
| JsonSorter.SortText | EDennis.JsonUtils/TestApi.Tests/Jxml/JsonSorter.cs:17-31 | parse failure and sort failure are both reported with the input text; otherwise the rendered sorted tree |
| JsonSorter.SortTextIdempotent | EDennis.JsonUtils/TestApi.Tests/Jxml/JsonSorter.cs:17-31 | when re-parsing the sorted text gives the sorted tree, sorting it again changes nothing |
| FileStringComparer.PadRight | EDennis.JsonUtils/TestApi.Tests/FileStringComparer.cs:72 | the length is the larger of the width and the text's |
| FileStringComparer.PadRightPads | EDennis.JsonUtils/TestApi.Tests/FileStringComparer.cs:72 | the padded text starts with the text and continues with spaces only |
| FileStringComparer.PadLeft | EDennis.JsonUtils/TestApi.Tests/FileStringComparer.cs:72 | the length is the larger of the width and the text's |
| FileStringComparer.PadLeftPads | EDennis.JsonUtils/TestApi.Tests/FileStringComparer.cs:72 | the padded text ends with the text and before it holds spaces only |
| FileStringComparer.PadCenterCentres | EDennis.JsonUtils/TestApi.Tests/FileStringComparer.cs:69-74 | length is the larger of the length and the text's; the text sits after half the spare room; the margins differ by at most one |
| FileStringComparer.MaxLenBounds | EDennis.JsonUtils/TestApi.Tests/FileStringComparer.cs:99-105 | no line is longer than the maximum, some line reaches it, and it is 0 for no lines |
| FileStringComparer.GetMaxLineLength | EDennis.JsonUtils/TestApi.Tests/FileStringComparer.cs:99-105 | the loop computes the maximum line length |
| FileStringComparer.ReplaceCrLfKeepsLineFeeds | EDennis.JsonUtils/TestApi.Tests/FileStringComparer.cs:84 | the replacement keeps every line feed and leaves text without CR unchanged |
| FileStringComparer.SplitLfJoins | EDennis.JsonUtils/TestApi.Tests/FileStringComparer.cs:85 | one more piece than line feeds, none holding one, and joining gives the text back |
| FileStringComparer.PadAllToLongest | EDennis.JsonUtils/TestApi.Tests/FileStringComparer.cs:86-90 | each padded line is its piece followed by spaces, all as long as the longest |
| FileStringComparer.LinesOfPadded | EDennis.JsonUtils/TestApi.Tests/FileStringComparer.cs:83-92 | the lines are the split pieces, all of equal length, one per line feed plus one |
| FileStringComparer.GetLines | EDennis.JsonUtils/TestApi.Tests/FileStringComparer.cs:83-92 | the array padded in place holds exactly those lines |
| FileStringComparer.GetSideBySideFileStrings | EDennis.JsonUtils/TestApi.Tests/FileStringComparer.cs:21-60 | the builder's text is every row of the layout followed by the newline |
| FileStringComparer.SideBySide | EDennis.JsonUtils/TestApi.Tests/FileStringComparer.cs:33-59 | the same, once both texts are split |
| FileStringComparer.RowsHead | EDennis.JsonUtils/TestApi.Tests/FileStringComparer.cs:36-42 | a rule line, the centred headers and a rule line come first |
| FileStringComparer.CommonRows | EDennis.JsonUtils/TestApi.Tests/FileStringComparer.cs:46-48 | the first loop appends the rows where both texts have a line |
| FileStringComparer.ExtraSecondRows | EDennis.JsonUtils/TestApi.Tests/FileStringComparer.cs:50-52 | the second loop appends the extra lines of the second text |
| FileStringComparer.ExtraFirstRows | EDennis.JsonUtils/TestApi.Tests/FileStringComparer.cs:54-56 | the third loop appends the extra lines of the first text |
| FileStringComparer.RowCommon | EDennis.JsonUtils/TestApi.Tests/FileStringComparer.cs:47 | a common row is both lines with "X" exactly when their trimmed forms differ |
| FileStringComparer.RowExtra | EDennis.JsonUtils/TestApi.Tests/FileStringComparer.cs:51-55 | an extra row is blank on the missing side and always marked "X" |
| FileStringComparer.TrimPadded | EDennis.JsonUtils/TestApi.Tests/FileStringComparer.cs:47 | the padding does not change what the trimmed comparison sees |
| FileStringComparer.RowsAt | EDennis.JsonUtils/TestApi.Tests/FileStringComparer.cs:36-56 | there are 3 + max(n1, n2) rows |
| FileStringComparer.SideBySideLayout | EDennis.JsonUtils/TestApi.Tests/FileStringComparer.cs:21-60 | rules and headers, then one row per line of the longer text, each with both padded lines and "X" exactly when only one text has the line or the trimmed lines differ |
| JsonToJxml.CleanTagAsWritten | EDennis.JsonUtils/TestApi.Tests/Jxml/JsonToJxml.cs:37-38 | the result is empty or starts with a letter |
| JsonToJxml.CleanTagAsWrittenDropsHyphen | EDennis.JsonUtils/TestApi.Tests/Jxml/JsonToJxml.cs:37-38 | "a-b" is cleaned to "ab" |
| JsonToJxml.CleanTagAsWrittenKeepsCaret | EDennis.JsonUtils/TestApi.Tests/Jxml/JsonToJxml.cs:37-38 | "a^b" keeps its caret |
| JsonToJxml.CleanTagAsWrittenKeepsCleanNames | EDennis.JsonUtils/TestApi.Tests/Jxml/JsonToJxml.cs:37-38 | a key that starts with a letter and holds only characters the pattern as written keeps passes through unchanged |
| JsonToJxml.CleanTag | EDennis.JsonUtils/TestApi.Tests/Jxml/JsonToJxml.cs:182-184 | the result is empty or an XML name starting with a letter, and holds only letters, digits, `-` and `_` |
| JsonToJxml.CleanTagEmptyIff | EDennis.JsonUtils/TestApi.Tests/Jxml/JsonToJxml.cs:182-184 | a key cleans to nothing exactly when it has no ASCII letter |
| JsonToJxml.CleanTagKeepsCleanNames | EDennis.JsonUtils/TestApi.Tests/Jxml/JsonToJxml.cs:182-184 | clean names pass through unchanged |
| JsonToJxml.CleanTagIdempotent | EDennis.JsonUtils/TestApi.Tests/Jxml/JsonToJxml.cs:182-184 | cleaning twice changes nothing |
| JsonToJxml.CleanTagKeepsHyphen | EDennis.JsonUtils/TestApi.Tests/Jxml/JsonToJxml.cs:37-38 | "first-name" stays "first-name" |
| JsonToJxml.CleanTagsAgree | EDennis.JsonUtils/TestApi.Tests/Jxml/JsonToJxml.cs:37-38 | on keys without `-`, `\`, `]` and `^` the cleaning as written and the intended cleaning agree |
| JsonToJxml.Started | EDennis.JsonUtils/TestApi.Tests/Jxml/JsonToJxml.cs:124-125 | the document holds only the jx:root start tag, and ROOT is on top of the lineage |
| JsonToJxml.JsonToJxml.constructor | EDennis.JsonUtils/TestApi.Tests/Jxml/JsonToJxml.cs:79-95 | all stacks, the document and the id counter empty |
| JsonToJxml.JsonToJxml.ConvertToJxml | EDennis.JsonUtils/TestApi.Tests/Jxml/JsonToJxml.cs:107-269 | the loop produces the outcome and final state of the specification run, keys cleaned with the pattern as written |
| JsonToJxml.JsonToJxml.HandleToken | EDennis.JsonUtils/TestApi.Tests/Jxml/JsonToJxml.cs:128-260 | one token changes the state as the specification step does; a key pushes its tag cleaned with the pattern as written |
| JsonToJxml.JsonToJxml.StartObjectToken | EDennis.JsonUtils/TestApi.Tests/Jxml/JsonToJxml.cs:141-169 | the StartObject case, as its specification |
| JsonToJxml.JsonToJxml.WriteValue | EDennis.JsonUtils/TestApi.Tests/Jxml/JsonToJxml.cs:279-309 | WriteValue, as its specification |
| JsonToJxml.JsonToJxml.WriteArrayItems | EDennis.JsonUtils/TestApi.Tests/Jxml/JsonToJxml.cs:316-340 | writes the array-items of the specification and leaves the lineage and arrays stacks as they were; fails on an empty stack |
| JsonToJxml.JsonToJxml.MoveArrays | EDennis.JsonUtils/TestApi.Tests/Jxml/JsonToJxml.cs:325-330 | moves the run of arrays from the top, up to the first with children; fails exactly when the specification does |
| JsonToJxml.JsonToJxml.RestoreArrays | EDennis.JsonUtils/TestApi.Tests/Jxml/JsonToJxml.cs:334-338 | writes one array-item per moved array, outermost first, and pushes them back |
| JsonToJxml.MovedStops | EDennis.JsonUtils/TestApi.Tests/Jxml/JsonToJxml.cs:325-330 | the moved run stops after the first array that has children; the loop fails exactly when it runs through first-item arrays |
| JsonToJxml.ArrayItemsOutermostFirst | EDennis.JsonUtils/TestApi.Tests/Jxml/JsonToJxml.cs:334-338 | the j-th instruction names the j-th moved array from the bottom |
| JsonToJxml.ArrayItemsAreInstructions | EDennis.JsonUtils/TestApi.Tests/Jxml/JsonToJxml.cs:337 | array-items are processing instructions, never attributes |
| JsonToJxml.ScalarStep | EDennis.JsonUtils/TestApi.Tests/Jxml/JsonToJxml.cs:188-222 | a scalar that converts is written by WriteValue with its text and type |
| JsonToJxml.WriteValueElement | EDennis.JsonUtils/TestApi.Tests/Jxml/JsonToJxml.cs:279-309 | start tag and jx:type first, jx:sub-sib exactly for a later array item, then the text and end tag |
| JsonToJxml.WriteValueStacks | EDennis.JsonUtils/TestApi.Tests/Jxml/JsonToJxml.cs:291-307 | inside an array the child count rises by one and the key stays; elsewhere the key is used up |
| JsonToJxml.ScalarWritesTypedElement | EDennis.JsonUtils/TestApi.Tests/Jxml/JsonToJxml.cs:282-288 | every scalar is one element with its jx:type, named by the key or jx:value |
| JsonToJxml.StartObjectWritesObjectStart | EDennis.JsonUtils/TestApi.Tests/Jxml/JsonToJxml.cs:141-169 | a keyless object is tagged jx:object; an element is opened unless it is the root value; jx:sub-sib for a later array item; object-start last |
| JsonToJxml.StartObjectStacks | EDennis.JsonUtils/TestApi.Tests/Jxml/JsonToJxml.cs:152-165 | the tag stays, the array's child count rises, OBJECT is pushed |
| JsonToJxml.EndTokensMarkTheirEnds | EDennis.JsonUtils/TestApi.Tests/Jxml/JsonToJxml.cs:229-255 | EndObject writes object-end and closes an element unless only ROOT is left; EndArray fails exactly on an empty arrays stack and otherwise writes array-end with the popped id |
| JsonToJxml.RunAppends | EDennis.JsonUtils/TestApi.Tests/Jxml/JsonToJxml.cs:128-260 | the document only grows |
| JsonToJxml.ConvertWrapsInRoot | EDennis.JsonUtils/TestApi.Tests/Jxml/JsonToJxml.cs:124-125 | the document starts with jx:root and ends with the end of the document |
| JsonToJxml.RunKeepsFreshIds | EDennis.JsonUtils/TestApi.Tests/Jxml/JsonToJxml.cs:171-177 | every open array has its own id, below the next fresh one |
| JsonToJxml.StepKeepsTagsAsWritten | EDennis.JsonUtils/TestApi.Tests/Jxml/JsonToJxml.cs:179-186 | with the cleaning as written every tag on the stack is empty or starts with a letter and holds only letters, digits and the characters from `\` to `_` |
| JsonToJxml.RefusedNamesAsWritten | EDennis.JsonUtils/TestApi.Tests/Jxml/JsonToJxml.cs:179-186 | with the cleaning as written the writer refuses a name only when it is empty or holds `\`, `]` or `^` |
| JsonToJxml.CaretKeyRefused | EDennis.JsonUtils/TestApi.Tests/Jxml/JsonToJxml.cs:179-186 | the key "a^b" is pushed unchanged and its value is refused by the XML writer |
| JsonToJxml.CorrectedStep | EDennis.JsonUtils/TestApi.Tests/Jxml/JsonToJxml.cs:179-186 | the step with the intended cleaning: a key pushes its cleaned name, every other token is handled as the step of the source |
| JsonToJxml.StepKeepsCleanTags | EDennis.JsonUtils/TestApi.Tests/Jxml/JsonToJxml.cs:179-186 | with the intended cleaning every tag on the stack is a cleaned key or a jx name |
| JsonToJxml.OnlyEmptyNamesRefused | EDennis.JsonUtils/TestApi.Tests/Jxml/JsonToJxml.cs:179-186 | with the intended cleaning the writer refuses a name only when the key cleaned to nothing |
| JxmlToJson.GetAttribute | EDennis.JsonUtils/TestApi.Tests/Jxml/JxmlToJson.cs:59-63 | found exactly when some attribute has that name, and then its value is one such attribute's |
| JxmlToJson.ToInt32 | EDennis.JsonUtils/TestApi.Tests/Jxml/JxmlToJson.cs:81-83 | a successful result lies in the 32-bit range |
| JxmlToJson.ToInt32OfIntText | EDennis.JsonUtils/TestApi.Tests/Jxml/JxmlToJson.cs:81-83 | the decimal text of a 32-bit integer reads back as that integer |
| JxmlToJson.ToLower | EDennis.JsonUtils/TestApi.Tests/Jxml/JxmlToJson.cs:69-71 | the same length as the text |
| JxmlToJson.ToLowerKeepsLower | EDennis.JsonUtils/TestApi.Tests/Jxml/JxmlToJson.cs:69-71 | text without capitals is its own lower case |
| JxmlToJson.ToBoolean | EDennis.JsonUtils/TestApi.Tests/Jxml/JxmlToJson.cs:69-71 | "true" and "false" in any case, anything else fails |
| JxmlToJson.AsciiBytes | EDennis.JsonUtils/TestApi.Tests/Jxml/JxmlToJson.cs:72-74 | one code per character, every code below 128 |
| JxmlToJson.ConvertToJson | EDennis.JsonUtils/TestApi.Tests/Jxml/JxmlToJson.cs:30-138 | the loop produces the writer calls of the specification decoder, including its refusal (`KeyAfterKey`) of a key that follows a key with no value between them, as JsonTextWriter throws |
| JxmlToJson.DecodeFromConcat | EDennis.JsonUtils/TestApi.Tests/Jxml/JxmlToJson.cs:47-130 | decoding a document in two parts is decoding it whole |
| JxmlToJson.DecodeNeverOvercloses | EDennis.JsonUtils/TestApi.Tests/Jxml/JxmlToJson.cs:109-126 | never more arrays closed than opened, and all closed once every id has met its array-end |
| JxmlToJson.ArrayInstructionsReadBack | EDennis.JsonUtils/TestApi.Tests/Jxml/JxmlToJson.cs:109-126 | array-item opens the array exactly when its id is new; array-end closes it exactly when it was opened |
| JxmlToJson.ArrayItemOpensOnce | EDennis.JsonUtils/TestApi.Tests/Jxml/JxmlToJson.cs:109-113 | a second array-item for the same id writes nothing |
| JxmlToJson.ScalarReadsBack | EDennis.JsonUtils/TestApi.Tests/Jxml/JxmlToJson.cs:67-92 | the text and jx:type the encoder writes read back as the scalar itself (bytes excepted), when the date and decimal parsers accept the encoder's text |
| JxmlToJson.UnknownTypeIsNull | EDennis.JsonUtils/TestApi.Tests/Jxml/JxmlToJson.cs:87-89 | an unknown or missing type writes null |
| JxmlToJson.TextNodes | EDennis.JsonUtils/TestApi.Tests/Jxml/JxmlToJson.cs:67 | empty text is no node; white space alone is a white-space node |
| RoundTrips.ScalarEncoded | EDennis.JsonUtils/TestApi.Tests/Jxml/JsonToJxml.cs:141-243 | {"a": t} becomes jx:root, jx:object, object-start, element a with its type and text, object-end |
| RoundTrips.EmptyArrayEncoded | EDennis.JsonUtils/TestApi.Tests/Jxml/JsonToJxml.cs:171-177 | {"a": []} writes only its array-end inside the object |
| RoundTrips.ArrayOfTwoEncoded | EDennis.JsonUtils/TestApi.Tests/Jxml/JsonToJxml.cs:316-340 | {"a": [t1, t2]}: two elements a, the second with jx:sub-sib, each with the array's array-item |
| RoundTrips.ScalarRead | EDennis.JsonUtils/TestApi.Tests/Jxml/JxmlToJson.cs:47-96 | the nodes the reader reports for the scalar document |
| RoundTrips.EmptyArrayRead | EDennis.JsonUtils/TestApi.Tests/Jxml/JxmlToJson.cs:47-96 | the nodes of the empty-array document |
| RoundTrips.ArrayOfTwoRead | EDennis.JsonUtils/TestApi.Tests/Jxml/JxmlToJson.cs:47-96 | the nodes of the two-item document |
| RoundTrips.ScalarDecoded | EDennis.JsonUtils/TestApi.Tests/Jxml/JxmlToJson.cs:57-104 | the decoder's calls for the scalar document |
| RoundTrips.EmptyArrayDecoded | EDennis.JsonUtils/TestApi.Tests/Jxml/JxmlToJson.cs:121-126 | the orphaned array-end is ignored: only the object's start and end |
| RoundTrips.ArrayOfTwoDecoded | EDennis.JsonUtils/TestApi.Tests/Jxml/JxmlToJson.cs:109-126 | name, start array, both values, end array |
| RoundTrips.ScalarRoundTrip | EDennis.JsonUtils/TestApi.Tests/Jxml/JsonToJxml.cs:14-25 | {"a": t} with non-blank text comes back as the same writer calls |
| RoundTrips.BlankValueLost | EDennis.JsonUtils/TestApi.Tests/Jxml/JxmlToJson.cs:11-21 | {"a": t} with blank text comes back as the key and the end of the object, with no value call between them |
| RoundTrips.DanglingKeyThenKeyFails | EDennis.JsonUtils/TestApi.Tests/Jxml/JxmlToJson.cs:57-61 | {"a": t, "b": 1} with blank t fails at the key b, because the key a is still waiting for its value |
| JxmlToJson.AutoCompleted | EDennis.JsonUtils/TestApi.Tests/Jxml/JxmlToJson.cs:41-104 | the JsonTextWriter's completion of a key left without a value: the first call is kept, null is added after such a key, nothing else is added, and calls that leave no key open come out unchanged |
| RoundTrips.KeyCompletedWithNull | EDennis.JsonUtils/TestApi.Tests/Jxml/JxmlToJson.cs:41-104 | the writer turns a key followed by the end of the object into the key, null and the end |
| RoundTrips.NullKept | EDennis.JsonUtils/TestApi.Tests/Jxml/JxmlToJson.cs:11-21 | {"a": null} comes back exactly, once the writer completes the key with null |
| RoundTrips.BlankStringBecomesNull | EDennis.JsonUtils/TestApi.Tests/Jxml/JxmlToJson.cs:11-21 | {"a": " "} comes back as {"a": null} |
| RoundTrips.EmptyArrayLost | EDennis.JsonUtils/TestApi.Tests/Jxml/JsonToJxml.cs:171-177 | {"a": []} comes back as {}: key and array lost |
| RoundTrips.ArrayOfTwoRoundTrip | EDennis.JsonUtils/TestApi.Tests/Jxml/JsonToJxml.cs:14-25 | {"a": [t1, t2]} with non-blank texts comes back unchanged |
| RoundTrips.UnreadDateFails | EDennis.JsonUtils/TestApi.Tests/Jxml/JxmlToJson.cs:75-77 | a date text that Convert.ToDateTime cannot parse makes the round trip of {"a": date} fail in the decoder with a format error |
| RoundTrips.UnreadDecimalFails | EDennis.JsonUtils/TestApi.Tests/Jxml/JxmlToJson.cs:78-80 | a decimal text that is not a number fails in the decoder with a format error, and one outside the decimal range with an overflow error |

## Left out

- Reflection (`GetProperties`, `GetCustomAttributes`, `FindIEnumerable`, `MakeGenericMethod`/`Invoke`, `PropertyInfo.GetValue`): the model describes every object by explicit field descriptors and a type shape. A descriptor always has a value, so the TargetParameterCountException that `GetValue` throws on an indexer (SafeJsonSerializer.cs:332 in both projects) is not modelled.
- `GetHashCode`: it is modelled as object identity, so two distinct objects never collide as they can in the source.
- Rendering is carried as data or passed as a parameter: `String.Format`, `ToString`, Json.NET's and System.Text.Json's rendering of a token list to text, `Convert.ToDecimal`, date and double text. The model does no floating-point or decimal arithmetic.
- Whether a format string renders is an opaque predicate. The "decimal text overflows" test of the static serializer is a flag on the number.
- `JToken.Parse`, rendering a token tree, and `SelectToken` are parameters of `ObjectExtensions` and `JsonSorter`. `SelectToken` returns a token or none, so a malformed path, on which Json.NET throws a JsonException, is reported as the `MissingPath` FormatException.
- The culture-sensitive string comparer is a parameter. The model needs only that it is a total preorder.
- `Copy`, `FromJsonString`, `ToObject<T>` and `Filter` in ObjectExtensions.cs (Json.NET round trips and the XSLT filter). Reading files and writing to the test output helper are parameters.
- JsonFilterer.cs, Jxml.cs (forwarding only) and the settings classes are not part of this model.
- The writers' own checks: the model writer refuses a property name outside an object and a value where no value is expected. It does not validate the rest of the token grammar.
- The grammar of the two dictionary-keyed serializers (`ObjectRun`, `ListRun` and the predicates under them) does not carry the dictionary. Where registration decides whether a nested list or object is written, the grammar allows both nothing and the full run. The method called at the top states which of the two happens, from the dictionary at the time of the call.
- The state after an exception: failures propagate, and the model says nothing about the depth or dictionary left behind, as the source has no `finally`.
- JsonToJxml: the converter class and its specification step clean keys with the pattern as written, so a kept `\`, `]` or `^` makes the XML writer fail. The intended cleaning and the properties of intended tags are stated about `CorrectedStep`, which the class does not use.
- JxmlToJson: `Convert.ToDateTime` and `Convert.ToDecimal` depend on the current culture. They are modelled by the `Parsers` parameter, which says which texts parse and which decimal texts fit the range. A parsed date or decimal is carried as its text, not as a value.
- FileStringComparer: widths and padding count the characters of `seq<char>`, which are Unicode scalar values. .NET counts UTF-16 code units, so a line with characters outside the Basic Multilingual Plane is one column shorter per such character in the model.
- Array ids of JsonToJxml: `Guid.NewGuid` is replaced by a counter starting at 0.
- XML escaping, line-end normalisation and the text form of the XML document are left out. The XML reader is modelled by `JxmlToJson.Nodes` on the encoder's events.
- `JxmlToJson.ConvertToJson`: it stops before the final `JToken.Parse`, so a document with unbalanced calls is not rejected. Of the JsonTextWriter's state checks it models only the refusal of a key directly after a key (`KeyAfterKey`).
- `JxmlToJson.ToBoolean`: does not trim surrounding white space as `Convert.ToBoolean` does.
- `JxmlToJson.ToInt32`: does not trim surrounding white space as `Convert.ToInt32` does.
- `JxmlToJson.ToLower`: lowers ASCII letters only, not the culture's full case mapping.
- JxmlToJson.AutoCompleted: of the JsonTextWriter's automatic completion it models only the null written for a key that the end of an object closes. The decoder's calls are stated before that completion, and the round-trip lemmas apply it on top.
- Bytes do not round trip: they read back as the character codes of their base64 text.
- The round trip is proved for one-key objects whose value is a scalar, an empty array, or an array of two scalars, not for every document.
- One source method is split into several model methods, each modelling the lines it cites:
  - DepthKeyed SerializeObject into SerializeNode and WriteTracked.
  - SerializeList into a scan and WriteArray.
  - The static Serialize into WriteNamedValue, WriteValue and WriteScalarValue.
  - Its array case into WriteArrayValue and WriteArrayItems.
  - The text keys into TextKeys and ElementText.
  - WriteArrayItems of JsonToJxml into MoveArrays and RestoreArrays.
- StaticSerializer.TextKeys: states only that the texts of a successful run are distinct, not that a failure always means an equal pair.
- StaticSerializer.WriteArrayItems: when the cast path fails part-way and the reflection path then passes (`retried` true), the tokens the failed attempt left are described only as some prefix that leaves the writer no shallower; the `*Bounded` lemmas hold for runs without a retry, which is every run whose cast paths all passed.
- StaticSerializer.SerializeValue: states that the writer ends at the depth it started at only when `retried` is false; after a failed cast path the containers it left open stay open, as the source has no `finally`.
- The grammar of the static serializer does not carry the hash list. A container the list may suppress is either nothing or its full run; `SerializeValue` states which, from the list at the time of the call.
- JsonUtilsConverter.SafeJsonConverter.WriteJson: the source calls a four-argument Serialize that passes the modulo map. SafeJsonSerializer.cs has no such overload, so the model calls the three-argument one and drops the map. The modulo rule is modelled from its commented-out form in `ModuloRule`.

## Findings

| source | as written | input that shows it | evidently intended | confidence | as-written member | corrected member |
|---|---|---|---|---|---|---|
| EDennis.JsonUtils/EDennis.JsonUtils/SafeJsonConverter.cs:357 | in a commented-out block, C# gives `&&` precedence over the conditional or, so the test reads "(name configured and int, long or uint) or ulong", and every ulong takes the modulo branch | a ulong property "Count" when only "Id" is configured: the lookup of "Count" throws KeyNotFoundException | the modulo applies only to configured names, for all four integral types | not executed | ModuloRule.ModuloAsWrittenRejectsUnconfiguredULong | ModuloRule.Modulo |
| EDennis.JsonUtils/TestApi.Tests/Jxml/JsonToJxml.cs:37-38 | the character class `[^A-Za-z0-9\\-_]` holds the range from `\` to `_`, not the characters `\`, `-` and `_` | the key "a-b" becomes "ab" (JsonToJxml.CleanTagAsWrittenDropsHyphen); the key "a^b" keeps "^", and the XML writer refuses the name | keep letters, digits, `-` and `_` | not executed | JsonToJxml.CaretKeyRefused | JsonToJxml.CorrectedStep |
