// Round trips through the two converters: the JSON reader's tokens are
// turned into JXML by the encoder, the XML reader reports the document's
// nodes, and the decoder turns those back into JSON writer calls. One
// object with one key "a" is followed through every step, for a scalar,
// for an array of two scalars and for an empty array.
module RoundTrips {
  import opened Wrappers
  import X = JsonToJxml
  import opened JxmlToJson

  const Fresh := X.Machine([], [], [], [], 0)
  const RootStart := X.StartElement(Some(X.NAMESPACE_PREFIX), X.ROOT)
  const ObjectTag := X.Tag(Some(X.NAMESPACE_PREFIX), X.OBJECT)
  const KeyTag := X.Tag(None, "a")
  const ObjectStartPI := X.ProcessingInstruction(X.OBJECT_START, "")
  const ObjectEndPI := X.ProcessingInstruction(X.OBJECT_END, "")
  const ArrayItem0 := X.ProcessingInstruction(X.ARRAY_ITEM, "0")
  const ArrayEnd0 := X.ProcessingInstruction(X.ARRAY_END, "0")

  // The encoder's writer calls before the document's end for the root
  // object and after it.
  const Opening := [RootStart, ObjectStartPI]
  const Closing := [ObjectEndPI, X.EndElement, X.EndDocument]

  // A scalar the encoder writes without an exception.
  predicate Writable(t: X.JsonToken)
  {
    X.IsScalar(t) && (t.Integer? ==> X.InInt32(t.value)) && (t.Float? ==> t.asDecimal.Some?)
  }

  // The element of a value under key "a".
  function ValueXml(t: X.JsonToken): seq<X.XmlEvent>
  {
    [X.StartElement(None, "a"), X.Attribute(X.TYPE, X.ScalarType(t).Text()), X.Text(X.ScalarText(t)), X.EndElement]
  }

  // The element of an item of the array under key "a": its tag and jx:type,
  // jx:sub-sib for a later item, the array's array-item, the text.
  function ItemXml(t: X.JsonToken, later: bool): seq<X.XmlEvent>
  {
    [X.StartElement(None, "a"), X.Attribute(X.TYPE, X.ScalarType(t).Text())] +
    (if later then [X.Attribute(X.SUBSIB, "true")] else []) +
    [ArrayItem0, X.Text(X.ScalarText(t)), X.EndElement]
  }

  // The encoder inside the root object, with and without the key "a", and
  // inside the array under that key.
  function InObject(xml: seq<X.XmlEvent>, nextId: nat): X.Machine
  {
    X.Machine([ObjectTag], [X.Parent(X.Root, 1), X.Parent(X.Object, 1)], [], xml, nextId)
  }

  function AtKey(xml: seq<X.XmlEvent>): X.Machine
  {
    X.Machine([ObjectTag, KeyTag], [X.Parent(X.Root, 1), X.Parent(X.Object, 1)], [], xml, 0)
  }

  function InArray(xml: seq<X.XmlEvent>, count: nat): X.Machine
  {
    X.Machine([ObjectTag, KeyTag], [X.Parent(X.Root, 1), X.Parent(X.Object, 1), X.Parent(X.Array, count)], [0], xml, 1)
  }

  // ---------------------------------------------------------------------
  // The encoder's steps.

  lemma RunStep(m: X.Machine, t: X.JsonToken, m1: X.Machine, rest: seq<X.JsonToken>)
    requires X.Step(m, t) == Success(m1)
    ensures X.Run(m, [t] + rest) == X.Run(m1, rest)
  {
    X.RunFirst(m, [t] + rest);
    assert ([t] + rest)[1..] == rest;
  }

  // The root object: StartObject on the root value writes only object-start.
  lemma ObjectOpened()
    ensures X.Step(X.Started(Fresh), X.StartObject) == Success(InObject(Opening, 0))
  {
    var m0 := X.Started(Fresh);
    assert m0 == X.Machine([], [X.Parent(X.Root, 1)], [], [RootStart], 0);
    assert X.TagsWith([], X.OBJECT) == [ObjectTag];
    assert m0.xml + [] + [ObjectStartPI] == Opening && m0.lineage + [X.Parent(X.Object, 1)] == InObject(Opening, 0).lineage;
  }

  // A property name pushes its cleaned key.
  lemma NameStep(m: X.Machine, key: string)
    ensures X.Step(m, X.PropertyName(key)) == Success(m.(tags := m.tags + [X.Tag(None, X.CleanTagAsWritten(key))]))
  {
  }

  // The root object's key, already a clean name, is pushed unchanged.
  lemma KeyPushed(xml: seq<X.XmlEvent>, key: string)
    requires key == [] || X.IsAsciiLetter(key[0])
    requires forall i :: 0 <= i < |key| ==> X.KeptAsWritten(key[i])
    ensures X.Step(InObject(xml, 0), X.PropertyName(key)) ==
      Success(InObject(xml, 0).(tags := [ObjectTag, X.Tag(None, key)]))
  {
    NameStep(InObject(xml, 0), key);
    X.CleanTagAsWrittenKeepsCleanNames(key);
    TwoTags(ObjectTag, X.Tag(None, key));
  }

  lemma TwoTags<T>(a: T, b: T)
    ensures [a] + [b] == [a, b]
  {
  }

  lemma KeyOpened(rest: seq<X.JsonToken>)
    ensures X.Run(X.Started(Fresh), [X.StartObject, X.PropertyName("a")] + rest) == X.Run(AtKey(Opening), rest)
  {
    ObjectOpened();
    assert X.IsAsciiLetter("a"[0]) && X.KeptAsWritten("a"[0]);
    KeyPushed(Opening, "a");
    assert InObject(Opening, 0).(tags := [ObjectTag, KeyTag]) == AtKey(Opening);
    RunStep(X.Started(Fresh), X.StartObject, InObject(Opening, 0), [X.PropertyName("a")] + rest);
    RunStep(InObject(Opening, 0), X.PropertyName("a"), AtKey(Opening), rest);
    TwoThen(X.StartObject, X.PropertyName("a"), rest);
  }

  lemma TwoThen<T>(a: T, b: T, rest: seq<T>)
    ensures [a, b] + rest == [a] + ([b] + rest)
  {
  }

  // A scalar under the key writes its element and uses the key up.
  lemma ValueStep(xml: seq<X.XmlEvent>, t: X.JsonToken)
    requires Writable(t)
    ensures X.Step(AtKey(xml), t) == Success(InObject(xml + ValueXml(t), 0))
  {
    var m := AtKey(xml);
    assert X.IsXmlName("a");
    assert X.Pop(m.tags) == [ObjectTag] && X.Last(m.lineage).kind == X.Object;
    assert xml + [X.StartElement(None, "a"), X.Attribute(X.TYPE, X.ScalarType(t).Text())] + [X.Text(X.ScalarText(t)), X.EndElement]
      == xml + ValueXml(t);
    assert X.WriteValueSpec(m, X.ScalarText(t), X.ScalarType(t)) == Success(InObject(xml + ValueXml(t), 0));
  }

  // StartArray under the key opens array 0.
  lemma ArrayOpened(xml: seq<X.XmlEvent>)
    ensures X.Step(AtKey(xml), X.StartArray) == Success(InArray(xml, 1))
  {
    var m := AtKey(xml);
    assert m.arrays + [0] == [0] && m.lineage + [X.Parent(X.Array, 1)] == InArray(xml, 1).lineage;
  }

  // Every item of that array writes the array's one array-item.
  lemma ArrayItemsInArray(count: nat)
    requires count >= 1
    ensures X.ArrayItems(InArray([], count).lineage, [0]) == Success([ArrayItem0])
  {
    var lineage := InArray([], count).lineage;
    assert X.Pop(lineage) == [X.Parent(X.Root, 1), X.Parent(X.Object, 1)];
    assert X.Moved(X.Pop(lineage)) == Success(0);
    assert X.Moved(lineage) == Success(1);
    assert X.IntText(0) == "0";
    assert [0][0..] == [0];
    assert X.ItemsFor([0]) == [ArrayItem0];
  }

  // WriteValue inside an array, in general.
  lemma ValueInArray(m: X.Machine, text: string, ty: X.JsonValueType, items: seq<X.XmlEvent>)
    requires |m.tags| > 0 && X.IsXmlName(X.Last(m.tags).name)
    requires |m.lineage| > 0 && X.Last(m.lineage).kind == X.Array
    requires X.ArrayItems(m.lineage, m.arrays) == Success(items)
    ensures X.WriteValueSpec(m, text, ty) ==
      Success(m.(lineage := X.Bumped(m.lineage),
                 xml := m.xml + [X.StartElement(X.Last(m.tags).prefix, X.Last(m.tags).name), X.Attribute(X.TYPE, ty.Text())] +
                        X.SubSib(X.Last(m.lineage)) + items + [X.Text(text), X.EndElement]))
  {
  }

  // An item of the array; the key stays for the next item.
  lemma ItemStep(xml: seq<X.XmlEvent>, t: X.JsonToken, count: nat)
    requires Writable(t) && count >= 1
    ensures X.Step(InArray(xml, count), t) == Success(InArray(xml + ItemXml(t, count > 1), count + 1))
  {
    var m := InArray(xml, count);
    ArrayItemsInArray(count);
    assert X.IsXmlName("a");
    ValueInArray(m, X.ScalarText(t), X.ScalarType(t), [ArrayItem0]);
    assert X.Bumped(m.lineage) == InArray([], count + 1).lineage;
    ItemXmlParts(xml, t, count);
  }

  lemma ItemXmlParts(xml: seq<X.XmlEvent>, t: X.JsonToken, count: nat)
    ensures xml + [X.StartElement(None, "a"), X.Attribute(X.TYPE, X.ScalarType(t).Text())] + X.SubSib(X.Parent(X.Array, count)) +
      [ArrayItem0] + [X.Text(X.ScalarText(t)), X.EndElement] == xml + ItemXml(t, count > 1)
  {
  }

  // Two items of the array.
  lemma ItemsRun(xml: seq<X.XmlEvent>, t1: X.JsonToken, t2: X.JsonToken, rest: seq<X.JsonToken>)
    requires Writable(t1) && Writable(t2)
    ensures X.Run(InArray(xml, 1), [t1, t2] + rest) == X.Run(InArray(xml + ItemXml(t1, false) + ItemXml(t2, true), 3), rest)
  {
    var x1 := xml + ItemXml(t1, false);
    ItemStep(xml, t1, 1);
    ItemStep(x1, t2, 2);
    RunStep(InArray(xml, 1), t1, InArray(x1, 2), [t2] + rest);
    RunStep(InArray(x1, 2), t2, InArray(x1 + ItemXml(t2, true), 3), rest);
    TwoThen(t1, t2, rest);
  }

  // EndArray writes the array's array-end and gives up the key.
  lemma ArrayClosed(xml: seq<X.XmlEvent>, count: nat)
    ensures X.Step(InArray(xml, count), X.EndArray) == Success(InObject(xml + [ArrayEnd0], 1))
  {
    var m := InArray(xml, count);
    assert X.IntText(0) == "0";
    assert X.Pop(m.arrays) == [] && X.Pop(m.lineage) == InObject([], 1).lineage && X.Pop(m.tags) == [ObjectTag];
  }

  // EndObject of the root object closes it and the root element.
  lemma ObjectClosed(xml: seq<X.XmlEvent>, nextId: nat)
    ensures X.Step(InObject(xml, nextId), X.EndObject) ==
      Success(X.Machine([], [X.Parent(X.Root, 1)], [], xml + [ObjectEndPI, X.EndElement], nextId))
  {
    var m := InObject(xml, nextId);
    assert X.Pop(m.lineage) == [X.Parent(X.Root, 1)] && X.Pop(m.tags) == [];
    assert xml + [ObjectEndPI] + [X.EndElement] == xml + [ObjectEndPI, X.EndElement];
  }

  // The end of the document.
  lemma Converted(ts: seq<X.JsonToken>, xml: seq<X.XmlEvent>, nextId: nat)
    requires X.Run(X.Started(Fresh), ts) == Success(X.Machine([], [X.Parent(X.Root, 1)], [], xml + [ObjectEndPI, X.EndElement], nextId))
    ensures X.Convert(Fresh, ts) == Success(X.Machine([], [X.Parent(X.Root, 1)], [], xml + Closing, nextId))
  {
    assert xml + [ObjectEndPI, X.EndElement] + [X.EndDocument] == xml + Closing;
  }

  // {"a": t}
  lemma ScalarEncoded(t: X.JsonToken)
    requires Writable(t)
    ensures X.Convert(Fresh, [X.StartObject, X.PropertyName("a"), t, X.EndObject]) ==
      Success(X.Machine([], [X.Parent(X.Root, 1)], [], Opening + ValueXml(t) + Closing, 0))
  {
    KeyOpened([t, X.EndObject]);
    ValueStep(Opening, t);
    ObjectClosed(Opening + ValueXml(t), 0);
    RunStep(AtKey(Opening), t, InObject(Opening + ValueXml(t), 0), [X.EndObject]);
    RunStep(InObject(Opening + ValueXml(t), 0), X.EndObject,
            X.Machine([], [X.Parent(X.Root, 1)], [], Opening + ValueXml(t) + [ObjectEndPI, X.EndElement], 0), []);
    assert [X.StartObject, X.PropertyName("a")] + [t, X.EndObject] == [X.StartObject, X.PropertyName("a"), t, X.EndObject];
    assert [t, X.EndObject] == [t] + [X.EndObject] && [X.EndObject] == [X.EndObject] + [];
    Converted([X.StartObject, X.PropertyName("a"), t, X.EndObject], Opening + ValueXml(t), 0);
  }

  // {"a": []}: the array writes only its array-end.
  lemma EmptyArrayEncoded()
    ensures X.Convert(Fresh, [X.StartObject, X.PropertyName("a"), X.StartArray, X.EndArray, X.EndObject]) ==
      Success(X.Machine([], [X.Parent(X.Root, 1)], [], Opening + [ArrayEnd0] + Closing, 1))
  {
    var rest := [X.StartArray, X.EndArray, X.EndObject];
    KeyOpened(rest);
    ArrayOpened(Opening);
    ArrayClosed(Opening, 1);
    ObjectClosed(Opening + [ArrayEnd0], 1);
    RunStep(AtKey(Opening), X.StartArray, InArray(Opening, 1), rest[1..]);
    RunStep(InArray(Opening, 1), X.EndArray, InObject(Opening + [ArrayEnd0], 1), rest[2..]);
    RunStep(InObject(Opening + [ArrayEnd0], 1), X.EndObject,
            X.Machine([], [X.Parent(X.Root, 1)], [], Opening + [ArrayEnd0] + [ObjectEndPI, X.EndElement], 1), []);
    assert [X.StartObject, X.PropertyName("a")] + rest == [X.StartObject, X.PropertyName("a"), X.StartArray, X.EndArray, X.EndObject];
    assert rest == [X.StartArray] + rest[1..] && rest[1..] == [X.EndArray] + rest[2..] && rest[2..] == [X.EndObject] + [];
    Converted([X.StartObject, X.PropertyName("a"), X.StartArray, X.EndArray, X.EndObject], Opening + [ArrayEnd0], 1);
  }

  // {"a": [t1, t2]}: both items carry the array's array-item; the second
  // carries jx:sub-sib.
  lemma ArrayOfTwoEncoded(t1: X.JsonToken, t2: X.JsonToken)
    requires Writable(t1) && Writable(t2)
    ensures X.Convert(Fresh, [X.StartObject, X.PropertyName("a"), X.StartArray, t1, t2, X.EndArray, X.EndObject]) ==
      Success(X.Machine([], [X.Parent(X.Root, 1)], [], Opening + ItemXml(t1, false) + ItemXml(t2, true) + [ArrayEnd0] + Closing, 1))
  {
    var rest := [X.StartArray, t1, t2, X.EndArray, X.EndObject];
    KeyOpened(rest);
    ArrayOfTwoRun(Opening, t1, t2);
    assert [X.StartObject, X.PropertyName("a")] + rest == [X.StartObject, X.PropertyName("a"), X.StartArray, t1, t2, X.EndArray, X.EndObject];
    Converted([X.StartObject, X.PropertyName("a"), X.StartArray, t1, t2, X.EndArray, X.EndObject],
              Opening + ItemXml(t1, false) + ItemXml(t2, true) + [ArrayEnd0], 1);
  }

  // The array under the key, after any xml: both items, then its array-end.
  lemma ArrayPartRun(xml: seq<X.XmlEvent>, t1: X.JsonToken, t2: X.JsonToken, rest: seq<X.JsonToken>)
    requires Writable(t1) && Writable(t2)
    ensures X.Run(AtKey(xml), [X.StartArray, t1, t2, X.EndArray] + rest) ==
      X.Run(InObject(xml + ItemXml(t1, false) + ItemXml(t2, true) + [ArrayEnd0], 1), rest)
  {
    var close := [X.EndArray] + rest;
    var x2 := xml + ItemXml(t1, false) + ItemXml(t2, true);
    ArrayOpened(xml);
    RunStep(AtKey(xml), X.StartArray, InArray(xml, 1), [t1, t2] + close);
    ItemsRun(xml, t1, t2, close);
    ArrayClosed(x2, 3);
    RunStep(InArray(x2, 3), X.EndArray, InObject(x2 + [ArrayEnd0], 1), rest);
    assert [X.StartArray, t1, t2, X.EndArray] + rest == [X.StartArray] + ([t1, t2] + close);
  }

  // The array under the key and the end of the object, after any xml.
  lemma ArrayOfTwoRun(xml: seq<X.XmlEvent>, t1: X.JsonToken, t2: X.JsonToken)
    requires Writable(t1) && Writable(t2)
    ensures X.Run(AtKey(xml), [X.StartArray, t1, t2, X.EndArray, X.EndObject]) ==
      Success(X.Machine([], [X.Parent(X.Root, 1)], [], xml + ItemXml(t1, false) + ItemXml(t2, true) + [ArrayEnd0] + [ObjectEndPI, X.EndElement], 1))
  {
    var x3 := xml + ItemXml(t1, false) + ItemXml(t2, true) + [ArrayEnd0];
    ArrayPartRun(xml, t1, t2, [X.EndObject]);
    ObjectClosed(x3, 1);
    RunStep(InObject(x3, 1), X.EndObject, X.Machine([], [X.Parent(X.Root, 1)], [], x3 + [ObjectEndPI, X.EndElement], 1), []);
    assert [X.StartArray, t1, t2, X.EndArray, X.EndObject] == [X.StartArray, t1, t2, X.EndArray] + [X.EndObject];
    assert [X.EndObject] == [X.EndObject] + [];
  }

  // ---------------------------------------------------------------------
  // The nodes the XML reader reports.

  const RootNodes := [Element(X.NAMESPACE_PREFIX, X.ROOT, []), PI(X.OBJECT_START, "")]
  const ClosingNodes := [PI(X.OBJECT_END, ""), EndElementNode]

  function ValueNodes(t: X.JsonToken): seq<XmlNode>
  {
    [Element("", "a", [(X.TYPE, X.ScalarType(t).Text())])] + TextNodes(X.ScalarText(t)) + [EndElementNode]
  }

  function ItemAttributes(t: X.JsonToken, later: bool): seq<(string, string)>
  {
    [(X.TYPE, X.ScalarType(t).Text())] + if later then [(X.SUBSIB, "true")] else []
  }

  function ItemNodes(t: X.JsonToken, later: bool): seq<XmlNode>
  {
    [Element("", "a", ItemAttributes(t, later)), PI(X.ARRAY_ITEM, "0")] + TextNodes(X.ScalarText(t)) + [EndElementNode]
  }

  // The root element has no attribute of the jx namespace.
  lemma OpeningRead(rest: seq<X.XmlEvent>)
    ensures Nodes(Opening + rest) == RootNodes + Nodes(rest)
  {
    var e := Opening + rest;
    assert e[1..] == [ObjectStartPI] + rest && e[1..][1..] == rest;
    assert LeadingAttributes(e[1..]) == [];
  }

  lemma ClosingRead()
    ensures Nodes(Closing) == ClosingNodes
  {
    assert Nodes(Closing[2..]) == [];
    assert Nodes(Closing[1..]) == [EndElementNode];
  }

  lemma InstructionRead(target: string, data: string, rest: seq<X.XmlEvent>)
    ensures Nodes([X.ProcessingInstruction(target, data)] + rest) == [PI(target, data)] + Nodes(rest)
  {
    assert ([X.ProcessingInstruction(target, data)] + rest)[1..] == rest;
  }

  // A start tag followed by its attribute events is one element.
  lemma ElementRead(prefix: Option<string>, name: string, events: seq<X.XmlEvent>,
                    attributes: seq<(string, string)>, after: seq<X.XmlEvent>)
    requires |events| == |attributes| && LeadingAttributes(events + after) == attributes
    ensures Nodes([X.StartElement(prefix, name)] + events + after) ==
      [Element(if prefix.Some? then prefix.value else "", name, attributes)] + Nodes(after)
  {
    var e := [X.StartElement(prefix, name)] + events + after;
    assert e[1..] == events + after;
    assert e[1 + |events|..] == after;
  }

  // The attribute events of a value or an item element.
  function AttributeEvents(t: X.JsonToken, later: bool): seq<X.XmlEvent>
  {
    [X.Attribute(X.TYPE, X.ScalarType(t).Text())] + if later then [X.Attribute(X.SUBSIB, "true")] else []
  }

  lemma AttributesRead(t: X.JsonToken, later: bool, after: seq<X.XmlEvent>)
    requires |after| > 0 && !after[0].Attribute?
    ensures |AttributeEvents(t, later)| == |ItemAttributes(t, later)|
    ensures LeadingAttributes(AttributeEvents(t, later) + after) == ItemAttributes(t, later)
  {
    var e := AttributeEvents(t, later) + after;
    if later {
      assert e[1..][1..] == after;
      assert LeadingAttributes(e[1..][1..]) == [];
    } else {
      assert e[1..] == after;
      assert LeadingAttributes(e[1..]) == [];
    }
  }

  lemma TextRead(v: string, rest: seq<X.XmlEvent>)
    ensures Nodes([X.Text(v), X.EndElement] + rest) == TextNodes(v) + [EndElementNode] + Nodes(rest)
  {
    var e := [X.Text(v), X.EndElement] + rest;
    assert e[1..] == [X.EndElement] + rest && e[1..][1..] == rest;
  }

  lemma ValueRead(t: X.JsonToken, rest: seq<X.XmlEvent>)
    ensures Nodes(ValueXml(t) + rest) == ValueNodes(t) + Nodes(rest)
  {
    var ev := AttributeEvents(t, false);
    var after := [X.Text(X.ScalarText(t)), X.EndElement] + rest;
    var text := TextNodes(X.ScalarText(t));
    assert ValueXml(t) + rest == [X.StartElement(None, "a")] + ev + after;
    AttributesRead(t, false, after);
    ElementRead(None, "a", ev, ItemAttributes(t, false), after);
    TextRead(X.ScalarText(t), rest);
    assert ItemAttributes(t, false) == [(X.TYPE, X.ScalarType(t).Text())];
    Assoc([Element("", "a", ItemAttributes(t, false))], text + [EndElementNode], Nodes(rest));
    Assoc([Element("", "a", ItemAttributes(t, false))] + text, [EndElementNode], Nodes(rest));
    Assoc([Element("", "a", ItemAttributes(t, false))], text, [EndElementNode]);
  }

  lemma ItemRead(t: X.JsonToken, later: bool, rest: seq<X.XmlEvent>)
    ensures Nodes(ItemXml(t, later) + rest) == ItemNodes(t, later) + Nodes(rest)
  {
    var ev := AttributeEvents(t, later);
    var content := [X.Text(X.ScalarText(t)), X.EndElement] + rest;
    var after := [ArrayItem0] + content;
    var text := TextNodes(X.ScalarText(t));
    var element := Element("", "a", ItemAttributes(t, later));
    ItemShape(X.StartElement(None, "a"), X.Attribute(X.TYPE, X.ScalarType(t).Text()),
              if later then [X.Attribute(X.SUBSIB, "true")] else [],
              ArrayItem0, X.Text(X.ScalarText(t)), X.EndElement, rest);
    AttributesRead(t, later, after);
    ElementRead(None, "a", ev, ItemAttributes(t, later), after);
    InstructionRead(X.ARRAY_ITEM, "0", content);
    TextRead(X.ScalarText(t), rest);
    NodesShape(element, PI(X.ARRAY_ITEM, "0"), text, [EndElementNode], Nodes(rest));
  }

  // The two groupings of an item element's events and of its nodes.
  lemma ItemShape<T>(a: T, b: T, s: seq<T>, c: T, d: T, e: T, r: seq<T>)
    ensures [a, b] + s + [c, d, e] + r == [a] + ([b] + s) + ([c] + ([d, e] + r))
  {
  }

  lemma NodesShape<T>(a: T, b: T, c: seq<T>, d: seq<T>, e: seq<T>)
    ensures [a] + ([b] + (c + d + e)) == [a, b] + c + d + e
  {
  }

  // Regrouping a concatenation of three sequences.
  lemma Assoc<T>(a: seq<T>, b: seq<T>, c: seq<T>)
    ensures a + (b + c) == a + b + c
  {
  }

  lemma ScalarRead(t: X.JsonToken)
    ensures Nodes(Opening + ValueXml(t) + Closing) == RootNodes + ValueNodes(t) + ClosingNodes
  {
    ClosingRead();
    ValueRead(t, Closing);
    OpeningRead(ValueXml(t) + Closing);
    assert Opening + ValueXml(t) + Closing == Opening + (ValueXml(t) + Closing);
  }

  lemma EmptyArrayRead()
    ensures Nodes(Opening + [ArrayEnd0] + Closing) == RootNodes + [PI(X.ARRAY_END, "0")] + ClosingNodes
  {
    ClosingRead();
    InstructionRead(X.ARRAY_END, "0", Closing);
    OpeningRead([ArrayEnd0] + Closing);
    assert Opening + [ArrayEnd0] + Closing == Opening + ([ArrayEnd0] + Closing);
  }

  lemma ItemsRead(t1: X.JsonToken, t2: X.JsonToken, rest: seq<X.XmlEvent>)
    ensures Nodes(ItemXml(t1, false) + ItemXml(t2, true) + rest) == ItemNodes(t1, false) + ItemNodes(t2, true) + Nodes(rest)
  {
    var a := ItemXml(t1, false);
    var b := ItemXml(t2, true);
    var r2 := b + rest;
    ItemRead(t2, true, rest);
    ItemRead(t1, false, r2);
    Assoc(a, b, rest);
    Assoc(ItemNodes(t1, false), ItemNodes(t2, true), Nodes(rest));
  }

  // Regrouping a concatenation of five sequences.
  lemma Regroup<T>(p: seq<T>, a: seq<T>, b: seq<T>, c: seq<T>, q: seq<T>)
    ensures p + a + b + c + q == p + (a + b + (c + q))
  {
  }

  // Everything after the opening of {"a": [t1, t2]}.
  lemma ArrayBodyRead(t1: X.JsonToken, t2: X.JsonToken)
    ensures Nodes(ItemXml(t1, false) + ItemXml(t2, true) + ([ArrayEnd0] + Closing)) ==
      ItemNodes(t1, false) + ItemNodes(t2, true) + ([PI(X.ARRAY_END, "0")] + ClosingNodes)
  {
    ClosingRead();
    InstructionRead(X.ARRAY_END, "0", Closing);
    ItemsRead(t1, t2, [ArrayEnd0] + Closing);
  }

  lemma ArrayOfTwoRead(t1: X.JsonToken, t2: X.JsonToken)
    ensures Nodes(Opening + ItemXml(t1, false) + ItemXml(t2, true) + [ArrayEnd0] + Closing) ==
      RootNodes + ItemNodes(t1, false) + ItemNodes(t2, true) + [PI(X.ARRAY_END, "0")] + ClosingNodes
  {
    var a := ItemXml(t1, false);
    var b := ItemXml(t2, true);
    var tail := [ArrayEnd0] + Closing;
    var body := a + b + tail;
    var na := ItemNodes(t1, false);
    var nb := ItemNodes(t2, true);
    var ntail := [PI(X.ARRAY_END, "0")] + ClosingNodes;
    ArrayBodyRead(t1, t2);
    OpeningRead(body);
    Regroup(Opening, a, b, [ArrayEnd0], Closing);
    Regroup(RootNodes, na, nb, [PI(X.ARRAY_END, "0")], ClosingNodes);
  }

  // ---------------------------------------------------------------------
  // The decoder's calls.

  lemma RootDecoded(p: Parsers)
    ensures DecodeFrom(p, Reader(None, {}, []), RootNodes) == Success(Reader(None, {}, [WriteStartObject]))
  {
    var d0 := Reader(None, {}, []);
    var d1 := Reader(None, {}, [WriteStartObject]);
    assert !Named(X.NAMESPACE_PREFIX, []) && GetAttribute([], X.TYPE) == None && d0.calls + [] == d0.calls;
    assert Next(p, d0, RootNodes[0]) == Success(d0);
    assert d0.calls + [WriteStartObject] == d1.calls;
    assert Next(p, d0, RootNodes[1]) == Success(d1);
    DecodeFirst(p, d0, RootNodes);
    DecodeFirst(p, d0, RootNodes[1..]);
    assert DecodeFrom(p, d1, RootNodes[2..]) == Success(d1);
  }

  lemma ClosingDecoded(p: Parsers, d: Reader)
    ensures DecodeFrom(p, d, ClosingNodes) == Success(d.(calls := d.calls + [WriteEndObject]))
  {
    var d1 := d.(calls := d.calls + [WriteEndObject]);
    assert Next(p, d, ClosingNodes[0]) == Success(d1);
    assert Next(p, d1, ClosingNodes[1]) == Success(d1);
    DecodeFirst(p, d, ClosingNodes);
    DecodeFirst(p, d1, ClosingNodes[1..]);
    assert DecodeFrom(p, d1, ClosingNodes[2..]) == Success(d1);
  }

  lemma ArrayEndDecoded(p: Parsers, d: Reader)
    ensures DecodeFrom(p, d, [PI(X.ARRAY_END, "0")]) ==
      Success(d.(calls := d.calls + (if 0 in d.arrays then [WriteEndArray] else []), arrays := d.arrays - {0}))
  {
    assert X.IntText(0) == "0";
    ArrayInstructionsReadBack(p, d, 0);
    DecodeFirst(p, d, [PI(X.ARRAY_END, "0")]);
    assert [PI(X.ARRAY_END, "0")][1..] == [];
  }

  // A value element: the key, then by its text either one value or none.
  lemma ValueDecoded(p: Parsers, d: Reader, t: X.JsonToken)
    requires !KeyPending(d.calls)
    ensures DecodeFrom(p, d, ValueNodes(t)) ==
      var d1 := d.(calls := d.calls + [WritePropertyName("a")], jsonValueType := Some(X.ScalarType(t).Text()));
      if IsBlank(X.ScalarText(t)) then Success(d1)
      else match TextValue(p, d1.jsonValueType, X.ScalarText(t))
        case Success(c) => Success(d1.(calls := d1.calls + [c]))
        case Failure(e) => Failure(e)
  {
    var ty := X.ScalarType(t).Text();
    var text := X.ScalarText(t);
    var d1 := d.(calls := d.calls + [WritePropertyName("a")], jsonValueType := Some(ty));
    var head := [Element("", "a", [(X.TYPE, ty)])];
    assert Named("", [(X.TYPE, ty)]) && GetAttribute([(X.TYPE, ty)], X.TYPE) == Some(ty);
    assert QualifiedName("", "a") == "a";
    assert Next(p, d, head[0]) == Success(d1);
    DecodeFirst(p, d, head);
    assert DecodeFrom(p, d, head) == Success(d1);
    DecodeFromConcat(p, d, head + TextNodes(text), [EndElementNode]);
    DecodeFromConcat(p, d, head, TextNodes(text));
    if IsBlank(text) || TextValue(p, Some(ty), text).Success? {
      var d2 := if IsBlank(text) then d1 else d1.(calls := d1.calls + [TextValue(p, Some(ty), text).value]);
      assert DecodeFrom(p, d1, TextNodes(text)) == Success(d2);
      DecodeFirst(p, d2, [EndElementNode]);
      assert [EndElementNode][1..] == [];
    }
  }

  // An item element: the first item writes the key and opens the array, a
  // later one (jx:sub-sib) neither; both write the value.
  lemma ItemDecoded(p: Parsers, d: Reader, t: X.JsonToken, later: bool)
    requires Writable(t) && !t.Null? && !IsBlank(X.ScalarText(t)) && ReadsBack(p, t)
    requires !later ==> !KeyPending(d.calls)
    ensures DecodeFrom(p, d, ItemNodes(t, later)) ==
      Success(Reader(Some(X.ScalarType(t).Text()), d.arrays + {0},
                     d.calls + (if later then [] else [WritePropertyName("a")]) + (if 0 in d.arrays then [] else [WriteStartArray]) +
                     [Written(t)]))
  {
    var nodes := ItemNodes(t, later);
    var ty := Some(X.ScalarType(t).Text());
    var named := if later then [] else [WritePropertyName("a")];
    var start := if 0 in d.arrays then [] else [WriteStartArray];
    assert GetAttribute(ItemAttributes(t, later), X.TYPE) == ty;
    assert later ==> GetAttribute(ItemAttributes(t, later), X.SUBSIB) == Some("true");
    assert !later ==> GetAttribute(ItemAttributes(t, later), X.SUBSIB) == None;
    var d1 := Reader(ty, d.arrays, d.calls + named);
    assert Next(p, d, nodes[0]) == Success(d1);
    assert X.IntText(0) == "0";
    ArrayInstructionsReadBack(p, d1, 0);
    var d2 := Reader(ty, d.arrays + {0}, d1.calls + start);
    assert Next(p, d1, nodes[1]) == Success(d2);
    ScalarReadsBack(p, t);
    var d3 := d2.(calls := d2.calls + [Written(t)]);
    assert nodes[2] == TextNode(X.ScalarText(t));
    assert Next(p, d2, nodes[2]) == Success(d3);
    assert Next(p, d3, nodes[3]) == Success(d3);
    DecodeFirst(p, d, nodes);
    DecodeFirst(p, d1, nodes[1..]);
    DecodeFirst(p, d2, nodes[2..]);
    DecodeFirst(p, d3, nodes[3..]);
    assert DecodeFrom(p, d3, nodes[4..]) == Success(d3);
  }

  lemma ScalarDecoded(p: Parsers, t: X.JsonToken)
    ensures Decode(p, RootNodes + ValueNodes(t) + ClosingNodes) ==
      if IsBlank(X.ScalarText(t)) then Success([WriteStartObject, WritePropertyName("a"), WriteEndObject])
      else match TextValue(p, Some(X.ScalarType(t).Text()), X.ScalarText(t))
        case Success(c) => Success([WriteStartObject, WritePropertyName("a"), c, WriteEndObject])
        case Failure(e) => Failure(e)
  {
    var d0 := Reader(None, {}, []);
    var d1 := Reader(None, {}, [WriteStartObject]);
    RootDecoded(p);
    ValueDecoded(p, d1, t);
    DecodeFromConcat(p, d0, RootNodes + ValueNodes(t), ClosingNodes);
    DecodeFromConcat(p, d0, RootNodes, ValueNodes(t));
    var d2 := d1.(calls := d1.calls + [WritePropertyName("a")], jsonValueType := Some(X.ScalarType(t).Text()));
    var nodes := RootNodes + ValueNodes(t) + ClosingNodes;
    if IsBlank(X.ScalarText(t)) {
      ClosingDecoded(p, d2);
      ThreeCalls(WriteStartObject, WritePropertyName("a"), WriteEndObject);
      assert DecodeFrom(p, d0, nodes) == Success(d2.(calls := d2.calls + [WriteEndObject]));
    } else if TextValue(p, d2.jsonValueType, X.ScalarText(t)).Success? {
      var c := TextValue(p, d2.jsonValueType, X.ScalarText(t)).value;
      var d3 := d2.(calls := d2.calls + [c]);
      ClosingDecoded(p, d3);
      FourCalls(WriteStartObject, WritePropertyName("a"), c, WriteEndObject);
      assert DecodeFrom(p, d0, nodes) == Success(d3.(calls := d3.calls + [WriteEndObject]));
    } else {
      assert DecodeFrom(p, d0, nodes) == Failure(TextValue(p, d2.jsonValueType, X.ScalarText(t)).error);
    }
  }

  lemma ThreeCalls<T>(a: T, b: T, c: T)
    ensures [a] + [b] + [c] == [a, b, c]
  {
  }

  lemma FourCalls<T>(a: T, b: T, c: T, e: T)
    ensures [a] + [b] + [c] + [e] == [a, b, c, e]
  {
  }

  lemma EmptyArrayDecoded(p: Parsers)
    ensures Decode(p, RootNodes + [PI(X.ARRAY_END, "0")] + ClosingNodes) == Success([WriteStartObject, WriteEndObject])
  {
    var d0 := Reader(None, {}, []);
    var d1 := Reader(None, {}, [WriteStartObject]);
    RootDecoded(p);
    var end := [PI(X.ARRAY_END, "0")];
    ArrayEndDecoded(p, d1);
    assert d1.calls + [] == d1.calls && d1.arrays - {0} == d1.arrays;
    assert d1.(calls := d1.calls + [], arrays := d1.arrays - {0}) == d1;
    assert DecodeFrom(p, d1, end) == Success(d1);
    ClosingDecoded(p, d1);
    assert d1.calls + [WriteEndObject] == [WriteStartObject, WriteEndObject];
    DecodeFromConcat(p, d0, RootNodes + end, ClosingNodes);
    DecodeFromConcat(p, d0, RootNodes, end);
    assert DecodeFrom(p, d0, RootNodes + end) == Success(d1);
    assert DecodeFrom(p, d0, RootNodes + end + ClosingNodes) == Success(Reader(None, {}, [WriteStartObject, WriteEndObject]));
  }

  // The two items: the first writes the key, opens the array and writes its
  // value; the second writes only its value.
  lemma ItemsDecoded(p: Parsers, t1: X.JsonToken, t2: X.JsonToken)
    requires Writable(t1) && !t1.Null? && !IsBlank(X.ScalarText(t1))
    requires Writable(t2) && !t2.Null? && !IsBlank(X.ScalarText(t2))
    requires ReadsBack(p, t1) && ReadsBack(p, t2)
    ensures DecodeFrom(p, Reader(None, {}, [WriteStartObject]), ItemNodes(t1, false) + ItemNodes(t2, true)) ==
      Success(Reader(Some(X.ScalarType(t2).Text()), {0}, [WriteStartObject, WritePropertyName("a"), WriteStartArray, Written(t1), Written(t2)]))
  {
    var d1 := Reader(None, {}, [WriteStartObject]);
    ItemDecoded(p, d1, t1, false);
    var d2 := Reader(Some(X.ScalarType(t1).Text()), {0}, [WriteStartObject, WritePropertyName("a"), WriteStartArray, Written(t1)]);
    assert d1.arrays + {0} == {0} && d1.calls + [WritePropertyName("a")] + [WriteStartArray] + [Written(t1)] == d2.calls;
    assert DecodeFrom(p, d1, ItemNodes(t1, false)) == Success(d2);
    ItemDecoded(p, d2, t2, true);
    var d3 := Reader(Some(X.ScalarType(t2).Text()), {0}, d2.calls + [Written(t2)]);
    assert d2.arrays + {0} == {0} && d2.calls + [] + [] + [Written(t2)] == d3.calls;
    assert DecodeFrom(p, d2, ItemNodes(t2, true)) == Success(d3);
    assert d2.calls + [Written(t2)] == [WriteStartObject, WritePropertyName("a"), WriteStartArray, Written(t1), Written(t2)];
    DecodeFromConcat(p, d1, ItemNodes(t1, false), ItemNodes(t2, true));
  }

  lemma ArrayOfTwoDecoded(p: Parsers, t1: X.JsonToken, t2: X.JsonToken)
    requires Writable(t1) && !t1.Null? && !IsBlank(X.ScalarText(t1))
    requires Writable(t2) && !t2.Null? && !IsBlank(X.ScalarText(t2))
    requires ReadsBack(p, t1) && ReadsBack(p, t2)
    ensures Decode(p, RootNodes + ItemNodes(t1, false) + ItemNodes(t2, true) + [PI(X.ARRAY_END, "0")] + ClosingNodes) ==
      Success([WriteStartObject, WritePropertyName("a"), WriteStartArray, Written(t1), Written(t2), WriteEndArray, WriteEndObject])
  {
    var n1 := ItemNodes(t1, false);
    var n2 := ItemNodes(t2, true);
    var items := n1 + n2;
    var end := [PI(X.ARRAY_END, "0")];
    var d0 := Reader(None, {}, []);
    var d1 := Reader(None, {}, [WriteStartObject]);
    RootDecoded(p);
    ItemsDecoded(p, t1, t2);
    var d3 := Reader(Some(X.ScalarType(t2).Text()), {0}, [WriteStartObject, WritePropertyName("a"), WriteStartArray, Written(t1), Written(t2)]);
    ArrayEndDecoded(p, d3);
    var d4 := d3.(calls := d3.calls + [WriteEndArray], arrays := {});
    assert d3.arrays - {0} == {};
    ClosingDecoded(p, d4);
    assert d4.calls + [WriteEndObject] ==
      [WriteStartObject, WritePropertyName("a"), WriteStartArray, Written(t1), Written(t2), WriteEndArray, WriteEndObject];
    assert RootNodes + n1 + n2 == RootNodes + items;
    DecodeFromConcat(p, d0, RootNodes + items + end, ClosingNodes);
    DecodeFromConcat(p, d0, RootNodes + items, end);
    DecodeFromConcat(p, d0, RootNodes, items);
  }

  // ---------------------------------------------------------------------
  // The round trips.

  // {"a": t} for a scalar t with text: the key and the value both come back.
  lemma ScalarRoundTrip(p: Parsers, t: X.JsonToken)
    requires Writable(t) && !t.Null? && !IsBlank(X.ScalarText(t)) && ReadsBack(p, t)
    ensures RoundTrip(p, [X.StartObject, X.PropertyName("a"), t, X.EndObject]) ==
      Success([WriteStartObject, WritePropertyName("a"), Written(t), WriteEndObject])
  {
    ScalarEncoded(t);
    ScalarRead(t);
    ScalarDecoded(p, t);
    ScalarReadsBack(p, t);
  }

  // {"a": t} for a date whose text the current culture does not read as a
  // date: the decoder raises FormatException.
  lemma UnreadDateFails(p: Parsers, s: string)
    requires Writable(X.Date(s)) && !IsBlank(s) && !p.isDate(s)
    ensures RoundTrip(p, [X.StartObject, X.PropertyName("a"), X.Date(s), X.EndObject]) == Failure(Decoding(FormatError(s)))
  {
    ScalarEncoded(X.Date(s));
    ScalarRead(X.Date(s));
    ScalarDecoded(p, X.Date(s));
  }

  // {"a": t} for a number whose decimal text the current culture does not
  // read as a number, or reads as one outside decimal's range: the decoder
  // raises FormatException or OverflowException.
  lemma UnreadDecimalFails(p: Parsers, s: string)
    requires !IsBlank(s) && !(p.isNumber(s) && p.fitsDecimal(s))
    ensures RoundTrip(p, [X.StartObject, X.PropertyName("a"), X.Float(Some(s)), X.EndObject]) ==
      Failure(Decoding(if p.isNumber(s) then OverflowError(s) else FormatError(s)))
  {
    ScalarEncoded(X.Float(Some(s)));
    ScalarRead(X.Float(Some(s)));
    ScalarDecoded(p, X.Float(Some(s)));
  }

  // {"a": t} for null, the empty string or a string of white space only:
  // the element has no text node, so the decoder writes the key and no value
  // for it.
  lemma BlankValueLost(p: Parsers, t: X.JsonToken)
    requires Writable(t) && IsBlank(X.ScalarText(t))
    ensures RoundTrip(p, [X.StartObject, X.PropertyName("a"), t, X.EndObject]) ==
      Success([WriteStartObject, WritePropertyName("a"), WriteEndObject])
  {
    ScalarEncoded(t);
    ScalarRead(t);
    ScalarDecoded(p, t);
  }

  // The writer completes a key left without a value with null.
  lemma KeyCompletedWithNull(calls: seq<JsonCall>)
    requires calls == [WriteStartObject, WritePropertyName("a"), WriteEndObject]
    ensures AutoCompleted(calls) == [WriteStartObject, WritePropertyName("a"), WriteNull, WriteEndObject]
  {
    assert calls[1..] == [WritePropertyName("a"), WriteEndObject];
    assert calls[1..][1..] == [WriteEndObject];
    assert AutoCompleted([WriteEndObject]) == [WriteEndObject];
  }

  // So {"a": null} comes back as it was once the writer completes it.
  lemma NullKept(p: Parsers)
    ensures RoundTrip(p, [X.StartObject, X.PropertyName("a"), X.Null, X.EndObject]).Success?
    ensures AutoCompleted(RoundTrip(p, [X.StartObject, X.PropertyName("a"), X.Null, X.EndObject]).value) ==
      [WriteStartObject, WritePropertyName("a"), WriteNull, WriteEndObject]
  {
    BlankValueLost(p, X.Null);
    KeyCompletedWithNull(RoundTrip(p, [X.StartObject, X.PropertyName("a"), X.Null, X.EndObject]).value);
  }

  // And {"a": " "} comes back as {"a": null}.
  lemma BlankStringBecomesNull(p: Parsers)
    ensures RoundTrip(p, [X.StartObject, X.PropertyName("a"), X.String(" "), X.EndObject]).Success?
    ensures AutoCompleted(RoundTrip(p, [X.StartObject, X.PropertyName("a"), X.String(" "), X.EndObject]).value) ==
      [WriteStartObject, WritePropertyName("a"), WriteNull, WriteEndObject]
  {
    BlankValueLost(p, X.String(" "));
    KeyCompletedWithNull(RoundTrip(p, [X.StartObject, X.PropertyName("a"), X.String(" "), X.EndObject]).value);
  }

  // The element the encoder writes for "b": 1.
  const SecondValueNodes := [Element("", "b", [(X.TYPE, X.JsonValueType.IntegerType.Text())]), TextNode("1"), EndElementNode]

  // {"a": t, "b": 1} for a t without text (null, "" or white space): the
  // key "a" is still waiting for its value when "b" arrives, and the writer
  // refuses the second key.
  lemma DanglingKeyThenKeyFails(p: Parsers, t: X.JsonToken)
    requires Writable(t) && IsBlank(X.ScalarText(t))
    ensures Decode(p, RootNodes + ValueNodes(t) + SecondValueNodes + ClosingNodes) == Failure(KeyAfterKey("b"))
  {
    var d0 := Reader(None, {}, []);
    var d1 := Reader(None, {}, [WriteStartObject]);
    RootDecoded(p);
    ValueDecoded(p, d1, t);
    var d2 := d1.(calls := d1.calls + [WritePropertyName("a")], jsonValueType := Some(X.ScalarType(t).Text()));
    assert DecodeFrom(p, d1, ValueNodes(t)) == Success(d2);
    assert KeyPending(d2.calls) && Named("", [(X.TYPE, X.JsonValueType.IntegerType.Text())]) && QualifiedName("", "b") == "b";
    assert Next(p, d2, SecondValueNodes[0]) == Failure(KeyAfterKey("b"));
    DecodeFirst(p, d2, SecondValueNodes);
    DecodeFromConcat(p, d0, RootNodes, ValueNodes(t));
    DecodeFromConcat(p, d0, RootNodes + ValueNodes(t), SecondValueNodes);
    DecodeFromConcat(p, d0, RootNodes + ValueNodes(t) + SecondValueNodes, ClosingNodes);
  }

  // {"a": []}: an empty array writes only its array-end, which the decoder
  // ignores, so the key and the array are both lost.
  lemma EmptyArrayLost(p: Parsers)
    ensures RoundTrip(p, [X.StartObject, X.PropertyName("a"), X.StartArray, X.EndArray, X.EndObject]) ==
      Success([WriteStartObject, WriteEndObject])
  {
    EmptyArrayEncoded();
    EmptyArrayRead();
    EmptyArrayDecoded(p);
  }

  // {"a": [t1, t2]} for scalars with text: the key, the array and both
  // values come back, in order.
  lemma ArrayOfTwoRoundTrip(p: Parsers, t1: X.JsonToken, t2: X.JsonToken)
    requires Writable(t1) && !t1.Null? && !IsBlank(X.ScalarText(t1))
    requires Writable(t2) && !t2.Null? && !IsBlank(X.ScalarText(t2))
    requires ReadsBack(p, t1) && ReadsBack(p, t2)
    ensures RoundTrip(p, [X.StartObject, X.PropertyName("a"), X.StartArray, t1, t2, X.EndArray, X.EndObject]) ==
      Success([WriteStartObject, WritePropertyName("a"), WriteStartArray, Written(t1), Written(t2), WriteEndArray, WriteEndObject])
  {
    ArrayOfTwoEncoded(t1, t2);
    ArrayOfTwoRead(t1, t2);
    ArrayOfTwoDecoded(p, t1, t2);
  }
}
