// JsonSorter (Jxml/JsonSorter.cs): a deep canonical ordering of a Json.NET
// token tree. The children of every object and array are put in ascending
// order of the text of their own recursively sorted form.
//
// Json.NET tokens are mutable: Sort(JToken) reorders objects and arrays in
// place and returns a token. The model is on values, one tree per token,
// and its Sorted pair carries both the new state of the argument
// ("effective") and the token returned. The two differ only for a property
// whose value is a container: the value is sorted in place, but the returned
// property is rebuilt (see PropertyReturned).
module JsonSorter {
  import opened Wrappers
  import opened KeySort

  datatype ScalarKind = Integer | Float | String | Boolean | Null | Date | Bytes

  // A Json.NET token: a JValue, a JArray, a JObject (whose children are
  // properties) or a JProperty (whose one child is its value).
  datatype JToken =
    | JValue(kind: ScalarKind, text: string)
    | JArray(items: seq<JToken>)
    | JObject(props: seq<JToken>)
    | JProperty(name: string, value: JToken)

  // JToken.Type.
  datatype JTokenType = ObjectType | ArrayType | PropertyType | ScalarType(kind: ScalarKind)

  function TypeOf(t: JToken): JTokenType
  {
    match t
    case JValue(k, _) => ScalarType(k)
    case JArray(_) => ArrayType
    case JObject(_) => ObjectType
    case JProperty(_, _) => PropertyType
  }

  // `t is JContainer`.
  predicate IsContainer(t: JToken)
  {
    !t.JValue?
  }

  // JToken.Children().
  function Children(t: JToken): seq<JToken>
  {
    match t
    case JValue(_, _) => []
    case JArray(items) => items
    case JObject(props) => props
    case JProperty(_, v) => [v]
  }

  // ToString() of a token (Json.NET's indented rendering).
  type Render = JToken -> string

  // JsonExtensions.ChildType: the type of the first child, Null when there
  // is none.
  function ChildType(t: JToken): (r: JTokenType)
    ensures Children(t) != [] ==> r == TypeOf(Children(t)[0])
    ensures Children(t) == [] ==> r == ScalarType(Null)
  {
    var cs := Children(t);
    if cs == [] then ScalarType(Null) else TypeOf(cs[0])
  }

  function AnyContainer(cs: seq<JToken>): (b: bool)
    ensures b <==> exists i :: 0 <= i < |cs| && IsContainer(cs[i])
  {
    if cs == [] then false
    else if IsContainer(cs[0]) then true
    else
      assert forall i :: 1 <= i < |cs| ==> cs[i] == cs[1..][i - 1];
      AnyContainer(cs[1..])
  }

  // JsonExtensions.ChildIsContainer: some child is a container.
  function ChildIsContainer(t: JToken): (b: bool)
    ensures b <==> exists i :: 0 <= i < |Children(t)| && IsContainer(Children(t)[i])
  {
    AnyContainer(Children(t))
  }

  // For a property both scans look at its value alone.
  lemma PropertyChildScans(n: string, v: JToken)
    ensures ChildType(JProperty(n, v)) == TypeOf(v)
    ensures ChildIsContainer(JProperty(n, v)) == IsContainer(v)
  {
    assert Children(JProperty(n, v))[0] == v;
  }

  datatype Sorted = Sorted(effective: JToken, returned: JToken)

  datatype SortError = DuplicateKey(key: string)

  // The property Sort builds for a property whose value v, now sorted in
  // place to ev, is a container. For an array value propValue.Add clones the
  // value (it still has a parent), so the array comes back wrapped in a
  // second array. For an object value the source adds to propValue a new
  // property whose value is propValue itself; Json.NET clones that property,
  // and then clones propValue again when it becomes the value of the
  // returned property, because propValue still has the discarded property
  // as its parent. The object comes back as { name: { name: {} } }.
  function PropertyReturned(n: string, v: JToken, ev: JToken): JToken
  {
    if v.JArray? then JProperty(n, JArray([ev]))
    else if ev.JObject? then JProperty(n, JObject([JProperty(n, JObject([]))]))
    else JProperty(n, JObject([ev]))
  }

  // Some key in pairs is equivalent to key: SortedDictionary.Add throws.
  predicate HasEquivalent(pairs: seq<(string, JToken)>, key: string, leq: Comparer)
  {
    exists j :: 0 <= j < |pairs| && leq(pairs[j].0, key) && leq(key, pairs[j].0)
  }

  // Sort(JToken), on values.
  function SortSpec(t: JToken, render: Render, leq: Comparer): Result<Sorted, SortError>
    decreases t, 1
  {
    match t
    case JValue(_, _) => Success(Sorted(t, t))
    case JProperty(n, v) =>
      if !IsContainer(v) then Success(Sorted(t, t))
      else (
        match SortSpec(v, render, leq)
        case Failure(e) => Failure(e)
        case Success(s) => Success(Sorted(JProperty(n, s.effective), PropertyReturned(n, v, s.effective))))
    case JObject(_) =>
      (match SortChildren(t, 0, [], render, leq)
       case Failure(e) => Failure(e)
       case Success(ps) => var o := JObject(Values(SortByKey(ps, leq))); Success(Sorted(o, o)))
    case JArray(_) =>
      (match SortChildren(t, 0, [], render, leq)
       case Failure(e) => Failure(e)
       case Success(ps) => var a := JArray(Values(SortByKey(ps, leq))); Success(Sorted(a, a)))
  }

  // The foreach over the children from index i on: each child is sorted,
  // and the text of what its sort returns keys the child itself (now sorted
  // in place) in the SortedDictionary.
  function SortChildren(parent: JToken, i: nat, pairs: seq<(string, JToken)>, render: Render, leq: Comparer)
    : Result<seq<(string, JToken)>, SortError>
    decreases parent, 0, |Children(parent)| - i
  {
    if i >= |Children(parent)| then Success(pairs)
    else
      match SortSpec(Children(parent)[i], render, leq)
      case Failure(e) => Failure(e)
      case Success(s) =>
        var key := render(s.returned);
        if HasEquivalent(pairs, key, leq) then Failure(DuplicateKey(key))
        else SortChildren(parent, i + 1, pairs + [(key, s.effective)], render, leq)
  }

  // Sort(JToken): the two base cases, the dictionary of the children, and
  // the children re-added in key order.
  method Sort(t: JToken, render: Render, leq: Comparer) returns (r: Result<Sorted, SortError>)
    decreases t, 1
    ensures r == SortSpec(t, render, leq)
    ensures !IsContainer(t) ==> r == Success(Sorted(t, t))
    ensures t.JProperty? && !IsContainer(t.value) ==> r == Success(Sorted(t, t))
  {
    if !IsContainer(t) {
      return Success(Sorted(t, t));
    }
    var childIsContainer := ChildIsContainer(t);
    var childType := ChildType(t);
    PropertyScansOf(t);
    if t.JProperty? && !childIsContainer {
      return Success(Sorted(t, t));
    }
    var keyed := KeyChildren(t, render, leq);
    if keyed.Failure? {
      return Failure(keyed.error);
    }
    var ordered := SortByKey(keyed.value, leq);
    if t.JProperty? {
      PropertyKeys(t, render, leq);
      assert ordered == keyed.value;
      var propValue := PropertyValue(t.name, childType, ordered);
      return Success(Sorted(JProperty(t.name, ordered[0].1), JProperty(t.name, propValue)));
    } else {
      var kids := ReAdd(ordered);
      var c := if t.JObject? then JObject(kids) else JArray(kids);
      return Success(Sorted(c, c));
    }
  }

  lemma PropertyScansOf(t: JToken)
    ensures t.JProperty? ==> ChildType(t) == TypeOf(t.value) && ChildIsContainer(t) == IsContainer(t.value)
  {
    if t.JProperty? {
      PropertyChildScans(t.name, t.value);
    }
  }

  // The only child of a container-valued property keys a one-entry
  // dictionary.
  lemma PropertyKeys(t: JToken, render: Render, leq: Comparer)
    requires t.JProperty? && IsContainer(t.value)
    requires SortChildren(t, 0, [], render, leq).Success?
    ensures var ps := SortChildren(t, 0, [], render, leq).value;
      SortSpec(t.value, render, leq).Success? &&
      ps == [(render(SortSpec(t.value, render, leq).value.returned), SortSpec(t.value, render, leq).value.effective)]
  {
    assert Children(t)[0] == t.value;
  }

  // The foreach over the children, filling the SortedDictionary.
  method KeyChildren(t: JToken, render: Render, leq: Comparer) returns (r: Result<seq<(string, JToken)>, SortError>)
    decreases t, 0
    ensures r == SortChildren(t, 0, [], render, leq)
  {
    var children := Children(t);
    var pairs: seq<(string, JToken)> := [];
    var i := 0;
    while i < |children|
      invariant 0 <= i <= |children|
      invariant SortChildren(t, 0, [], render, leq) == SortChildren(t, i, pairs, render, leq)
    {
      var sorted := Sort(children[i], render, leq);
      if sorted.Failure? {
        return Failure(sorted.error);
      }
      var key := render(sorted.value.returned);
      if HasEquivalent(pairs, key, leq) {
        return Failure(DuplicateKey(key));
      }
      pairs := pairs + [(key, sorted.value.effective)];
      i := i + 1;
    }
    return Success(pairs);
  }

  // The property branch: propValue filled from the dictionary.
  method PropertyValue(name: string, childType: JTokenType, ordered: seq<(string, JToken)>) returns (propValue: JToken)
    requires |ordered| == 1 && (childType == ArrayType <==> ordered[0].1.JArray?)
    ensures JProperty(name, propValue) == PropertyReturned(name, ordered[0].1, ordered[0].1)
  {
    propValue := if childType == ArrayType then JArray([]) else JObject([]);
    var child := ordered[0].1;
    if child.JObject? && propValue.JObject? {
      // the added property is a clone of JProperty(name, propValue)
      assert propValue == JObject([]);
      propValue := JObject(propValue.props + [JProperty(name, propValue)]);
      assert propValue.props == [JProperty(name, JObject([]))];
    } else if propValue.JArray? {
      propValue := JArray(propValue.items + [child]);
      assert propValue.items == [child];
    } else {
      propValue := JObject(propValue.props + [child]);
      assert propValue.props == [child];
    }
  }

  // RemoveAll, then Add in key order.
  method ReAdd(ordered: seq<(string, JToken)>) returns (kids: seq<JToken>)
    ensures kids == Values(ordered)
  {
    kids := [];
    var k := 0;
    while k < |ordered|
      invariant 0 <= k <= |ordered|
      invariant kids == Values(ordered[..k])
    {
      ValuesAppend(ordered[..k], ordered[k]);
      assert ordered[..k + 1] == ordered[..k] + [ordered[k]];
      kids := kids + [ordered[k].1];
      k := k + 1;
    }
    assert ordered[..k] == ordered;
  }

  lemma ValuesAppend<K, V>(ps: seq<(K, V)>, p: (K, V))
    ensures Values(ps + [p]) == Values(ps) + [p.1]
  {
  }

  // The dictionary entry of a child whose sort succeeds.
  ghost function Keyed(c: JToken, render: Render, leq: Comparer): (string, JToken)
    requires SortSpec(c, render, leq).Success?
  {
    (render(SortSpec(c, render, leq).value.returned), SortSpec(c, render, leq).value.effective)
  }

  ghost predicate AllChildrenSort(t: JToken, render: Render, leq: Comparer)
  {
    forall j :: 0 <= j < |Children(t)| ==> SortSpec(Children(t)[j], render, leq).Success?
  }

  // The entries of all children, in input order.
  ghost function KeyedChildren(t: JToken, render: Render, leq: Comparer): (ps: seq<(string, JToken)>)
    requires AllChildrenSort(t, render, leq)
    ensures |ps| == |Children(t)|
  {
    seq(|Children(t)|, j requires 0 <= j < |Children(t)| => Keyed(Children(t)[j], render, leq))
  }

  // The text key of a token: the text of what sorting it returns.
  ghost function TextKey(c: JToken, render: Render, leq: Comparer): string
    requires SortSpec(c, render, leq).Success?
  {
    render(SortSpec(c, render, leq).value.returned)
  }

  // Every child sorts, and the keys go up strictly from child to child.
  ghost predicate StrictlyAscending(cs: seq<JToken>, render: Render, leq: Comparer)
  {
    (forall i :: 0 <= i < |cs| ==> SortSpec(cs[i], render, leq).Success?) &&
    forall i, j :: 0 <= i < j < |cs| ==>
      leq(TextKey(cs[i], render, leq), TextKey(cs[j], render, leq)) &&
      !leq(TextKey(cs[j], render, leq), TextKey(cs[i], render, leq))
  }

  // What a successful pass over the children from i on has collected.
  lemma {:induction false} SortChildrenFacts(parent: JToken, i: nat, pairs: seq<(string, JToken)>,
                                             render: Render, leq: Comparer)
    requires i <= |Children(parent)|
    requires SortChildren(parent, i, pairs, render, leq).Success?
    ensures var ps := SortChildren(parent, i, pairs, render, leq).value;
      |ps| == |pairs| + |Children(parent)| - i && ps[..|pairs|] == pairs &&
      (forall j :: i <= j < |Children(parent)| ==>
        SortSpec(Children(parent)[j], render, leq).Success? &&
        ps[|pairs| + j - i] == Keyed(Children(parent)[j], render, leq)) &&
      (KeysDistinct(pairs, leq) ==> KeysDistinct(ps, leq))
    decreases |Children(parent)| - i
  {
    if i < |Children(parent)| {
      var c := Children(parent)[i];
      var s := SortSpec(c, render, leq).value;
      var key := render(s.returned);
      var pairs' := pairs + [(key, s.effective)];
      SortChildrenFacts(parent, i + 1, pairs', render, leq);
      var ps := SortChildren(parent, i, pairs, render, leq).value;
      assert ps == SortChildren(parent, i + 1, pairs', render, leq).value;
      assert ps[..|pairs|] == ps[..|pairs'|][..|pairs|];
      if KeysDistinct(pairs, leq) {
        assert KeysDistinct(pairs', leq) by {
          forall a, b | 0 <= a < b < |pairs'|
            ensures !(leq(pairs'[a].0, pairs'[b].0) && leq(pairs'[b].0, pairs'[a].0))
          {
            if b == |pairs| {
              assert !(leq(pairs[a].0, key) && leq(key, pairs[a].0));
            }
          }
        }
      }
    }
  }

  // A pass over the children from i on collects full when every child sorts
  // to the next entry of full and full has no two equivalent keys.
  lemma {:induction false} SortChildrenComplete(parent: JToken, i: nat, pairs: seq<(string, JToken)>,
                                                full: seq<(string, JToken)>, render: Render, leq: Comparer)
    requires i <= |Children(parent)|
    requires |full| == |pairs| + |Children(parent)| - i && full[..|pairs|] == pairs
    requires forall j :: i <= j < |Children(parent)| ==>
      SortSpec(Children(parent)[j], render, leq).Success? &&
      full[|pairs| + j - i] == Keyed(Children(parent)[j], render, leq)
    requires KeysDistinct(full, leq)
    ensures SortChildren(parent, i, pairs, render, leq) == Success(full)
    decreases |Children(parent)| - i
  {
    if i == |Children(parent)| {
      assert full == full[..|pairs|];
    } else {
      var c := Children(parent)[i];
      var s := SortSpec(c, render, leq).value;
      var key := render(s.returned);
      assert full[|pairs|] == (key, s.effective);
      assert !HasEquivalent(pairs, key, leq) by {
        forall j | 0 <= j < |pairs| ensures !(leq(pairs[j].0, key) && leq(key, pairs[j].0)) {
          assert full[j] == pairs[j];
        }
      }
      var pairs' := pairs + [(key, s.effective)];
      assert full[..|pairs'|] == pairs' by {
        assert full[..|pairs'|] == full[..|pairs|] + [full[|pairs|]];
      }
      SortChildrenComplete(parent, i + 1, pairs', full, render, leq);
    }
  }

  // Sorting an object or an array succeeds exactly when every child sorts
  // and no two children get equivalent keys (SortedDictionary.Add throws
  // on an equivalent key).
  lemma SortSucceedsIff(t: JToken, render: Render, leq: Comparer)
    requires t.JObject? || t.JArray?
    ensures SortSpec(t, render, leq).Success? <==>
      AllChildrenSort(t, render, leq) && KeysDistinct(KeyedChildren(t, render, leq), leq)
  {
    if SortSpec(t, render, leq).Success? {
      SortChildrenFacts(t, 0, [], render, leq);
      var ps := SortChildren(t, 0, [], render, leq).value;
      assert ps == KeyedChildren(t, render, leq);
    }
    if AllChildrenSort(t, render, leq) && KeysDistinct(KeyedChildren(t, render, leq), leq) {
      SortChildrenComplete(t, 0, [], KeyedChildren(t, render, leq), render, leq);
    }
  }

  // Sorting twice gives what sorting once gives.
  lemma SortIdempotent(t: JToken, render: Render, leq: Comparer)
    requires TotalPreorder(leq)
    requires SortSpec(t, render, leq).Success?
    ensures SortSpec(SortSpec(t, render, leq).value.effective, render, leq) == SortSpec(t, render, leq)
    decreases t, 1
  {
    match t
    case JValue(_, _) =>
    case JProperty(n, v) =>
      if IsContainer(v) {
        SortIdempotent(v, render, leq);
        SortKeepsShape(v, render, leq);
      }
    case JObject(_) =>
      var ordered := EntriesInOrder(t, render, leq);
      EntriesStable(t, ordered, render, leq);
      EntriesResort(t, ordered, render, leq);
    case JArray(_) =>
      var ordered := EntriesInOrder(t, render, leq);
      EntriesStable(t, ordered, render, leq);
      EntriesResort(t, ordered, render, leq);
  }

  // Sorting keeps the kind of a token, and the name of a property.
  lemma SortKeepsShape(t: JToken, render: Render, leq: Comparer)
    requires SortSpec(t, render, leq).Success?
    ensures TypeOf(SortSpec(t, render, leq).value.effective) == TypeOf(t)
    ensures t.JProperty? ==> SortSpec(t, render, leq).value.effective.name == t.name
  {
  }

  // The entries of an object or array in key order: the dictionary of its
  // children, iterated. The sorted container's children are their values.
  lemma EntriesInOrder(t: JToken, render: Render, leq: Comparer) returns (ordered: seq<(string, JToken)>)
    requires TotalPreorder(leq)
    requires t.JObject? || t.JArray?
    requires SortSpec(t, render, leq).Success?
    ensures AllChildrenSort(t, render, leq)
    ensures SortedByKey(ordered, leq) && KeysDistinct(ordered, leq)
    ensures multiset(ordered) == multiset(KeyedChildren(t, render, leq))
    ensures SortSpec(t, render, leq).value.effective == (if t.JObject? then JObject(Values(ordered)) else JArray(Values(ordered)))
  {
    SortChildrenFacts(t, 0, [], render, leq);
    var ps := SortChildren(t, 0, [], render, leq).value;
    assert ps == KeyedChildren(t, render, leq);
    ordered := SortByKey(ps, leq);
    SortByKeySorted(ps, leq);
    SortByKeyDistinct(ps, leq);
  }

  // Each entry of a sorted container holds a token that sorts to itself,
  // keyed by its own text key.
  lemma EntriesStable(t: JToken, ordered: seq<(string, JToken)>, render: Render, leq: Comparer)
    requires TotalPreorder(leq)
    requires (t.JObject? || t.JArray?) && AllChildrenSort(t, render, leq)
    requires multiset(ordered) == multiset(KeyedChildren(t, render, leq))
    ensures forall k :: 0 <= k < |ordered| ==>
      SortSpec(ordered[k].1, render, leq).Success? &&
      SortSpec(ordered[k].1, render, leq).value.effective == ordered[k].1 &&
      ordered[k].0 == TextKey(ordered[k].1, render, leq)
    decreases t, 0
  {
    var ps := KeyedChildren(t, render, leq);
    forall k | 0 <= k < |ordered|
      ensures SortSpec(ordered[k].1, render, leq).Success?
      ensures SortSpec(ordered[k].1, render, leq).value.effective == ordered[k].1
      ensures ordered[k].0 == TextKey(ordered[k].1, render, leq)
    {
      assert ordered[k] in multiset(ps);
      var j :| 0 <= j < |ps| && ps[j] == ordered[k];
      SortIdempotent(Children(t)[j], render, leq);
    }
  }

  // The entries of a sorted container, sorted again.
  lemma EntriesResort(t: JToken, ordered: seq<(string, JToken)>, render: Render, leq: Comparer)
    requires (t.JObject? || t.JArray?)
    requires SortedByKey(ordered, leq) && KeysDistinct(ordered, leq)
    requires forall k :: 0 <= k < |ordered| ==>
      SortSpec(ordered[k].1, render, leq).Success? &&
      SortSpec(ordered[k].1, render, leq).value.effective == ordered[k].1 &&
      ordered[k].0 == TextKey(ordered[k].1, render, leq)
    ensures var e := if t.JObject? then JObject(Values(ordered)) else JArray(Values(ordered));
      SortSpec(e, render, leq) == Success(Sorted(e, e))
  {
    var e := if t.JObject? then JObject(Values(ordered)) else JArray(Values(ordered));
    EntriesRecollected(e, ordered, render, leq);
    SortByKeyOfSorted(ordered, leq);
  }

  lemma EntriesRecollected(e: JToken, ordered: seq<(string, JToken)>, render: Render, leq: Comparer)
    requires Children(e) == Values(ordered) && KeysDistinct(ordered, leq)
    requires forall k :: 0 <= k < |ordered| ==>
      SortSpec(ordered[k].1, render, leq).Success? &&
      SortSpec(ordered[k].1, render, leq).value.effective == ordered[k].1 &&
      ordered[k].0 == TextKey(ordered[k].1, render, leq)
    ensures SortChildren(e, 0, [], render, leq) == Success(ordered)
  {
    forall k | 0 <= k < |Children(e)|
      ensures SortSpec(Children(e)[k], render, leq).Success? && ordered[k] == Keyed(Children(e)[k], render, leq)
    {
      assert Children(e)[k] == ordered[k].1;
    }
    SortChildrenComplete(e, 0, [], ordered, render, leq);
  }

  lemma {:induction false} MultisetValues<K, V>(xs: seq<(K, V)>, ys: seq<(K, V)>)
    requires multiset(xs) == multiset(ys)
    ensures multiset(Values(xs)) == multiset(Values(ys))
    decreases |xs|
  {
    if xs == [] {
      assert |ys| == |multiset(ys)| == 0;
    } else {
      var x := xs[0];
      assert x in multiset(ys);
      var j :| 0 <= j < |ys| && ys[j] == x;
      var ys' := ys[..j] + ys[j + 1..];
      MultisetRemove(xs, ys, j);
      MultisetValues(xs[1..], ys');
      ValuesWithout(ys, j);
      assert Values(xs) == [x.1] + Values(xs[1..]);
    }
  }

  // Taking one entry out of a list takes its value out of the values.
  lemma ValuesWithout<K, V>(ys: seq<(K, V)>, j: nat)
    requires j < |ys|
    ensures multiset(Values(ys)) == multiset(Values(ys[..j] + ys[j + 1..])) + multiset{ys[j].1}
  {
    var x := ys[j];
    var before := ys[..j];
    var after := ys[j + 1..];
    SplitAt(ys, j);
    var vb := Values(before);
    var va := Values(after);
    ValuesConcat([x], after);
    ValuesConcat(before, [x] + after);
    ValuesConcat(before, after);
    MultisetMiddle(vb, x.1, va);
  }

  lemma SplitAt<T>(s: seq<T>, j: nat)
    requires j < |s|
    ensures s == s[..j] + ([s[j]] + s[j + 1..])
  {
  }

  lemma MultisetMiddle<T>(a: seq<T>, v: T, b: seq<T>)
    ensures multiset(a + ([v] + b)) == multiset(a + b) + multiset{v}
  {
  }

  lemma MultisetRemove<T>(xs: seq<T>, ys: seq<T>, j: nat)
    requires xs != [] && j < |ys| && ys[j] == xs[0] && multiset(xs) == multiset(ys)
    ensures multiset(xs[1..]) == multiset(ys[..j] + ys[j + 1..])
  {
    assert xs == [xs[0]] + xs[1..];
    assert ys == ys[..j] + [ys[j]] + ys[j + 1..];
    calc {
      multiset(xs[1..]);
      multiset(xs) - multiset{xs[0]};
      multiset(ys) - multiset{xs[0]};
      multiset(ys[..j]) + multiset(ys[j + 1..]);
      multiset(ys[..j] + ys[j + 1..]);
    }
  }

  lemma {:induction false} ValuesConcat<K, V>(xs: seq<(K, V)>, ys: seq<(K, V)>)
    ensures Values(xs + ys) == Values(xs) + Values(ys)
    decreases |xs|
  {
    if xs != [] {
      assert (xs + ys)[1..] == xs[1..] + ys;
      ValuesConcat(xs[1..], ys);
    }
  }

  // A sorted object or array: same kind and number of children, the sorted
  // children of the input in some order, in strictly ascending order of
  // their text keys; the token returned is the argument itself.
  lemma SortContainer(t: JToken, render: Render, leq: Comparer)
    requires TotalPreorder(leq)
    requires t.JObject? || t.JArray?
    requires SortSpec(t, render, leq).Success?
    ensures var s := SortSpec(t, render, leq).value;
      s.returned == s.effective && TypeOf(s.effective) == TypeOf(t) &&
      |Children(s.effective)| == |Children(t)| &&
      AllChildrenSort(t, render, leq) &&
      multiset(Children(s.effective)) == multiset(Values(KeyedChildren(t, render, leq))) &&
      StrictlyAscending(Children(s.effective), render, leq)
  {
    var ordered := EntriesInOrder(t, render, leq);
    EntriesStable(t, ordered, render, leq);
    MultisetValues(ordered, KeyedChildren(t, render, leq));
    var cs := Children(SortSpec(t, render, leq).value.effective);
    assert cs == Values(ordered);
    assert |ordered| == |KeyedChildren(t, render, leq)| by {
      assert |multiset(ordered)| == |multiset(KeyedChildren(t, render, leq))|;
    }
    forall i, j | 0 <= i < j < |cs|
      ensures leq(TextKey(cs[i], render, leq), TextKey(cs[j], render, leq))
      ensures !leq(TextKey(cs[j], render, leq), TextKey(cs[i], render, leq))
    {
      assert cs[i] == ordered[i].1 && cs[j] == ordered[j].1;
    }
  }

  // Two equal elements in an array: the second Add finds the first key.
  lemma RepeatedElementFails(x: JToken, render: Render, leq: Comparer)
    requires TotalPreorder(leq)
    ensures SortSpec(JArray([x, x]), render, leq).Failure?
  {
    var t := JArray([x, x]);
    SortSucceedsIff(t, render, leq);
    if AllChildrenSort(t, render, leq) {
      var ps := KeyedChildren(t, render, leq);
      assert ps[0] == ps[1];
      assert leq(ps[0].0, ps[1].0);
    }
  }

  datatype TextError = CannotParse(json: string) | CannotSort(json: string)

  // Sort(string): parse, sort, render. Both failures are reported with the
  // input text (ApplicationException).
  function SortText(json: string, parse: string -> Option<JToken>, render: Render, leq: Comparer)
    : (r: Result<string, TextError>)
    ensures parse(json).None? <==> r == Failure(CannotParse(json))
    ensures r == Failure(CannotSort(json)) <==> parse(json).Some? && SortSpec(parse(json).value, render, leq).Failure?
    ensures r.Success? ==> r.value == render(SortSpec(parse(json).value, render, leq).value.returned)
  {
    match parse(json)
    case None => Failure(CannotParse(json))
    case Some(t) =>
      match SortSpec(t, render, leq)
      case Failure(_) => Failure(CannotSort(json))
      case Success(s) => Success(render(s.returned))
  }

  // When parsing the sorted text gives back the sorted tree, sorting the
  // sorted text changes nothing. JToken.Parse never yields a property.
  lemma SortTextIdempotent(json: string, parse: string -> Option<JToken>, render: Render, leq: Comparer)
    requires TotalPreorder(leq)
    requires parse(json).Some? && !parse(json).value.JProperty?
    requires SortSpec(parse(json).value, render, leq).Success?
    requires parse(render(SortSpec(parse(json).value, render, leq).value.returned)) ==
             Some(SortSpec(parse(json).value, render, leq).value.returned)
    ensures SortText(json, parse, render, leq).Success?
    ensures SortText(SortText(json, parse, render, leq).value, parse, render, leq) == SortText(json, parse, render, leq)
  {
    var t := parse(json).value;
    SortIdempotent(t, render, leq);
    if t.JObject? || t.JArray? {
      SortContainer(t, render, leq);
    }
  }
}
