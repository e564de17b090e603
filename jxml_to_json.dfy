// The JXML-to-JSON decoder of the test utilities (Jxml/JxmlToJson.cs). It
// reads the nodes of a JXML document one by one and drives a JSON writer:
// plain elements give property names, text is written according to the
// jx:type of the element it sits in, and the processing instructions open
// and close objects and arrays. The JSON writer is modelled as the sequence
// of calls it receives; the XML reader as the sequence of nodes it reports.
module JxmlToJson {
  import opened Wrappers
  import X = JsonToJxml

  // The nodes the XML reader reports. The attributes listed are the ones in
  // the jx namespace, by local name, in document order.
  datatype XmlNode =
    | Element(prefix: string, localName: string, attributes: seq<(string, string)>)
    | TextNode(value: string)
    | Whitespace(space: string)
    | EndElementNode
    | PI(name: string, data: string)

  // Calls on the JSON writer.
  datatype JsonCall =
    | WriteStartObject
    | WriteEndObject
    | WriteStartArray
    | WriteEndArray
    | WritePropertyName(name: string)
    | WriteString(s: string)
    | WriteInteger(n: int)
    | WriteDecimal(decimalText: string)
    | WriteBoolean(b: bool)
    | WriteDate(dateText: string)
    | WriteBytes(bytes: seq<int>)
    | WriteNull

  // The exceptions of the Convert.To... calls, and the JsonWriterException
  // of a property name written while the previous one still waits for its
  // value.
  datatype ReadFailure = FormatError(text: string) | OverflowError(text: string) | KeyAfterKey(name: string)

  // XmlReader.GetAttribute(name, NAMESPACE_URI): the first such attribute.
  function GetAttribute(attributes: seq<(string, string)>, name: string): (r: Option<string>)
    ensures r.Some? <==> exists i :: 0 <= i < |attributes| && attributes[i].0 == name
    ensures r.Some? ==> exists i :: 0 <= i < |attributes| && attributes[i] == (name, r.value)
  {
    if |attributes| == 0 then None
    else if attributes[0].0 == name then Some(attributes[0].1)
    else
      var r := GetAttribute(attributes[1..], name);
      assert forall i :: 0 <= i < |attributes| - 1 ==> attributes[1..][i] == attributes[i + 1];
      r
  }

  // XmlReader.Name: the prefix, if any, a colon and the local name.
  function QualifiedName(prefix: string, localName: string): string
  {
    if prefix == "" then localName else prefix + ":" + localName
  }

  // ---------------------------------------------------------------------
  // The conversions of text.

  predicate AllDigits(s: string)
  {
    forall i :: 0 <= i < |s| ==> X.IsDigit(s[i])
  }

  function DigitsValue(s: string): nat
    requires AllDigits(s)
  {
    if |s| == 0 then 0 else DigitsValue(X.Pop(s)) * 10 + (X.Last(s) as int - '0' as int)
  }

  // Convert.ToInt32(string): an optional sign and decimal digits, within
  // the 32-bit range.
  function ToInt32(s: string): (r: Result<int, ReadFailure>)
    ensures r.Success? ==> X.InInt32(r.value)
  {
    var digits := if |s| > 0 && (s[0] == '-' || s[0] == '+') then s[1..] else s;
    if |digits| == 0 || !AllDigits(digits) then Failure(FormatError(s))
    else
      var n: int := if s[0] == '-' then -(DigitsValue(digits) as int) else DigitsValue(digits);
      if X.InInt32(n) then Success(n) else Failure(OverflowError(s))
  }

  lemma {:induction false} NatTextValue(n: nat)
    ensures AllDigits(X.NatText(n)) && DigitsValue(X.NatText(n)) == n
    decreases n
  {
    var s := X.NatText(n);
    if n >= 10 {
      NatTextValue(n / 10);
      assert X.Pop(s) == X.NatText(n / 10);
    }
  }

  // The decimal text the encoder writes reads back as the same integer.
  lemma ToInt32OfIntText(n: int)
    requires X.InInt32(n)
    ensures ToInt32(X.IntText(n)) == Success(n)
  {
    var s := X.IntText(n);
    if n < 0 {
      NatTextValue(-n);
      assert s[1..] == X.NatText(-n);
    } else {
      NatTextValue(n);
    }
  }

  function LowerChar(c: char): char
  {
    if 'A' <= c <= 'Z' then (c as int + 32) as char else c
  }

  // ToLower on ASCII letters; other characters are left as they are.
  function ToLower(s: string): (r: string)
    ensures |r| == |s|
  {
    if |s| == 0 then [] else [LowerChar(s[0])] + ToLower(s[1..])
  }

  // Text without capital letters is its own lower case.
  lemma {:induction false} ToLowerKeepsLower(s: string)
    requires forall i :: 0 <= i < |s| ==> !('A' <= s[i] <= 'Z')
    ensures ToLower(s) == s
  {
    if |s| > 0 {
      ToLowerKeepsLower(s[1..]);
    }
  }

  // Convert.ToBoolean of the lower-cased text.
  function ToBoolean(s: string): (r: Result<bool, ReadFailure>)
    ensures r.Success? <==> ToLower(s) in {"true", "false"}
    ensures r.Success? ==> (r.value <==> ToLower(s) == "true")
  {
    var lower := ToLower(s);
    if lower == "true" then Success(true)
    else if lower == "false" then Success(false)
    else Failure(FormatError(s))
  }

  // Encoding.ASCII.GetBytes: each character below 128 is its own code, any
  // other becomes '?'.
  function AsciiBytes(s: string): (r: seq<int>)
    ensures |r| == |s|
    ensures forall i :: 0 <= i < |s| ==> 0 <= r[i] < 128
  {
    if |s| == 0 then [] else [if s[0] as int < 128 then s[0] as int else '?' as int] + AsciiBytes(s[1..])
  }

  // What Convert.ToDateTime and Convert.ToDecimal accept. Both read the
  // text in the current culture, so the decoder takes them as given: a text
  // that is no date, or no number, raises FormatException; a number outside
  // decimal's range raises OverflowException.
  datatype Parsers = Parsers(isDate: string -> bool, isNumber: string -> bool, fitsDecimal: string -> bool)

  // The writer call for a text node inside an element of the given jx:type.
  function TextValue(p: Parsers, jsonValueType: Option<string>, v: string): (r: Result<JsonCall, ReadFailure>)
    ensures jsonValueType == Some(X.JsonValueType.DateType.Text()) ==>
      r == if p.isDate(v) then Success(WriteDate(v)) else Failure(FormatError(v))
    ensures jsonValueType == Some(X.JsonValueType.DecimalType.Text()) ==>
      r == if !p.isNumber(v) then Failure(FormatError(v))
           else if !p.fitsDecimal(v) then Failure(OverflowError(v))
           else Success(WriteDecimal(v))
  {
    if jsonValueType == Some(X.JsonValueType.BooleanType.Text()) then
      match ToBoolean(v)
      case Success(b) => Success(WriteBoolean(b))
      case Failure(e) => Failure(e)
    else if jsonValueType == Some(X.JsonValueType.BytesType.Text()) then Success(WriteBytes(AsciiBytes(v)))
    else if jsonValueType == Some(X.JsonValueType.DateType.Text()) then
      if p.isDate(v) then Success(WriteDate(v)) else Failure(FormatError(v))
    else if jsonValueType == Some(X.JsonValueType.DecimalType.Text()) then
      if !p.isNumber(v) then Failure(FormatError(v))
      else if !p.fitsDecimal(v) then Failure(OverflowError(v))
      else Success(WriteDecimal(v))
    else if jsonValueType == Some(X.JsonValueType.IntegerType.Text()) then
      match ToInt32(v)
      case Success(n) => Success(WriteInteger(n))
      case Failure(e) => Failure(e)
    else if jsonValueType == Some(X.JsonValueType.StringType.Text()) then Success(WriteString(v))
    else Success(WriteNull)
  }

  // ---------------------------------------------------------------------
  // The specification of the node loop.

  // The loop's variables: the jx:type of the last element, the ids of the
  // arrays opened so far, and the writer calls.
  datatype Reader = Reader(jsonValueType: Option<string>, arrays: set<int>, calls: seq<JsonCall>)

  predicate Named(prefix: string, attributes: seq<(string, string)>)
  {
    prefix != X.NAMESPACE_PREFIX && GetAttribute(attributes, X.SUBSIB) != Some("true")
  }

  // The last call is a property name: the writer is in its Property state.
  predicate KeyPending(calls: seq<JsonCall>)
  {
    |calls| > 0 && calls[|calls| - 1].WritePropertyName?
  }

  function Next(p: Parsers, d: Reader, node: XmlNode): Result<Reader, ReadFailure>
  {
    match node
    case Element(prefix, name, attributes) =>
      if Named(prefix, attributes) && KeyPending(d.calls) then Failure(KeyAfterKey(QualifiedName(prefix, name)))
      else Success(d.(calls := d.calls + (if Named(prefix, attributes) then [WritePropertyName(QualifiedName(prefix, name))] else []),
                 jsonValueType := GetAttribute(attributes, X.TYPE)))
    case TextNode(v) =>
      (match TextValue(p, d.jsonValueType, v)
       case Success(c) => Success(d.(calls := d.calls + [c]))
       case Failure(e) => Failure(e))
    case PI(name, v) =>
      if name == X.OBJECT_START then Success(d.(calls := d.calls + [WriteStartObject]))
      else if name == X.OBJECT_END then Success(d.(calls := d.calls + [WriteEndObject]))
      else if name == X.ARRAY_ITEM then
        (match ToInt32(v)
         case Success(id) =>
           Success(d.(calls := d.calls + (if id in d.arrays then [] else [WriteStartArray]), arrays := d.arrays + {id}))
         case Failure(e) => Failure(e))
      else if name == X.ARRAY_END then
        (match ToInt32(v)
         case Success(id) =>
           Success(d.(calls := d.calls + (if id in d.arrays then [WriteEndArray] else []), arrays := d.arrays - {id}))
         case Failure(e) => Failure(e))
      else Success(d)
    case _ => Success(d)
  }

  function DecodeFrom(p: Parsers, d: Reader, nodes: seq<XmlNode>): Result<Reader, ReadFailure>
    decreases |nodes|
  {
    if |nodes| == 0 then Success(d)
    else match Next(p, d, nodes[0])
      case Failure(e) => Failure(e)
      case Success(d1) => DecodeFrom(p, d1, nodes[1..])
  }

  function Decode(p: Parsers, nodes: seq<XmlNode>): Result<seq<JsonCall>, ReadFailure>
  {
    match DecodeFrom(p, Reader(None, {}, []), nodes)
    case Success(d) => Success(d.calls)
    case Failure(e) => Failure(e)
  }

  lemma DecodeFirst(p: Parsers, d: Reader, nodes: seq<XmlNode>)
    requires |nodes| > 0
    ensures Next(p, d, nodes[0]).Failure? ==> DecodeFrom(p, d, nodes) == Failure(Next(p, d, nodes[0]).error)
    ensures Next(p, d, nodes[0]).Success? ==> DecodeFrom(p, d, nodes) == DecodeFrom(p, Next(p, d, nodes[0]).value, nodes[1..])
  {
  }

  // Decoding a document in two parts.
  lemma {:induction false} DecodeFromConcat(p: Parsers, d: Reader, a: seq<XmlNode>, b: seq<XmlNode>)
    ensures DecodeFrom(p, d, a + b) ==
      match DecodeFrom(p, d, a)
      case Failure(e) => Failure(e)
      case Success(d1) => DecodeFrom(p, d1, b)
    decreases |a|
  {
    if |a| == 0 {
      assert a + b == b;
    } else {
      assert (a + b)[0] == a[0] && (a + b)[1..] == a[1..] + b;
      if Next(p, d, a[0]).Success? {
        DecodeFromConcat(p, Next(p, d, a[0]).value, a[1..], b);
      }
    }
  }

  // ConvertToJson's loop, up to the final JToken.Parse.
  method ConvertToJson(p: Parsers, nodes: seq<XmlNode>) returns (r: Result<seq<JsonCall>, ReadFailure>)
    ensures r == Decode(p, nodes)
  {
    var jsonValueType: Option<string> := None;
    var arrays: set<int> := {};
    var calls: seq<JsonCall> := [];
    var i := 0;
    while i < |nodes|
      invariant 0 <= i <= |nodes|
      decreases |nodes| - i
      invariant DecodeFrom(p, Reader(None, {}, []), nodes) == DecodeFrom(p, Reader(jsonValueType, arrays, calls), nodes[i..])
    {
      ghost var before := Reader(jsonValueType, arrays, calls);
      DecodeFirst(p, before, nodes[i..]);
      assert nodes[i..][0] == nodes[i] && nodes[i..][1..] == nodes[i + 1..];
      match nodes[i] {
      case Element(prefix, name, attributes) =>
        if prefix != X.NAMESPACE_PREFIX && GetAttribute(attributes, X.SUBSIB) != Some("true") {
          if |calls| > 0 && calls[|calls| - 1].WritePropertyName? {
            return Failure(KeyAfterKey(QualifiedName(prefix, name)));
          }
          calls := calls + [WritePropertyName(QualifiedName(prefix, name))];
        } else {
          assert calls == calls + [];
        }
        jsonValueType := GetAttribute(attributes, X.TYPE);
      case TextNode(v) =>
        var c := TextValue(p, jsonValueType, v);
        if c.Failure? {
          return Failure(c.error);
        }
        calls := calls + [c.value];
      case Whitespace(_) =>
      case EndElementNode =>
      case PI(name, v) =>
        if name == X.OBJECT_START {
          calls := calls + [WriteStartObject];
        } else if name == X.OBJECT_END {
          calls := calls + [WriteEndObject];
        } else if name == X.ARRAY_ITEM {
          var id := ToInt32(v);
          if id.Failure? {
            return Failure(id.error);
          }
          if id.value !in arrays {
            calls := calls + [WriteStartArray];
          } else {
            assert calls == calls + [];
          }
          arrays := arrays + {id.value};
        } else if name == X.ARRAY_END {
          var id := ToInt32(v);
          if id.Failure? {
            return Failure(id.error);
          }
          if id.value in arrays {
            calls := calls + [WriteEndArray];
          } else {
            assert calls == calls + [];
          }
          arrays := arrays - {id.value};
        }
      }
      assert Next(p, before, nodes[i]) == Success(Reader(jsonValueType, arrays, calls));
      i := i + 1;
    }
    r := Success(calls);
  }

  // ---------------------------------------------------------------------
  // Properties of the decoder.

  // How often a writer call occurs.
  function Count(calls: seq<JsonCall>, c: JsonCall): (n: nat)
    ensures n <= |calls|
    ensures n == 0 <==> c !in calls
  {
    if |calls| == 0 then 0 else Count(X.Pop(calls), c) + (if X.Last(calls) == c then 1 else 0)
  }

  lemma CountAppend(calls: seq<JsonCall>, more: seq<JsonCall>, c: JsonCall)
    requires |more| <= 1
    ensures Count(calls + more, c) == Count(calls, c) + (if |more| == 1 && more[0] == c then 1 else 0)
  {
    if |more| == 1 {
      assert X.Pop(calls + more) == calls;
    } else {
      assert calls + more == calls;
    }
  }

  // Every array the decoder has opened and not closed is one open
  // WriteStartArray: array-item opens an id only once, and array-end closes
  // only ids that were opened.
  predicate Balanced(d: Reader)
  {
    Count(d.calls, WriteStartArray) == Count(d.calls, WriteEndArray) + |d.arrays|
  }

  lemma AddKeepsBalance(d: Reader, c: JsonCall)
    requires Balanced(d) && c != WriteStartArray && c != WriteEndArray
    ensures Balanced(d.(calls := d.calls + [c]))
  {
    CountAppend(d.calls, [c], WriteStartArray);
    CountAppend(d.calls, [c], WriteEndArray);
  }

  lemma ArrayItemKeepsBalance(d: Reader, id: int)
    requires Balanced(d)
    ensures Balanced(d.(calls := d.calls + (if id in d.arrays then [] else [WriteStartArray]), arrays := d.arrays + {id}))
  {
    var more := if id in d.arrays then [] else [WriteStartArray];
    CountAppend(d.calls, more, WriteStartArray);
    CountAppend(d.calls, more, WriteEndArray);
    if id in d.arrays {
      assert d.arrays + {id} == d.arrays;
    } else {
      assert |d.arrays + {id}| == |d.arrays| + 1;
    }
  }

  lemma ArrayEndKeepsBalance(d: Reader, id: int)
    requires Balanced(d)
    ensures Balanced(d.(calls := d.calls + (if id in d.arrays then [WriteEndArray] else []), arrays := d.arrays - {id}))
  {
    var more := if id in d.arrays then [WriteEndArray] else [];
    CountAppend(d.calls, more, WriteStartArray);
    CountAppend(d.calls, more, WriteEndArray);
    if id in d.arrays {
      assert |d.arrays - {id}| == |d.arrays| - 1;
    } else {
      assert d.arrays - {id} == d.arrays;
    }
  }

  lemma NextKeepsBalance(p: Parsers, d: Reader, node: XmlNode)
    requires Balanced(d) && Next(p, d, node).Success?
    ensures Balanced(Next(p, d, node).value)
  {
    match node
    case Element(prefix, name, attributes) =>
      if Named(prefix, attributes) {
        AddKeepsBalance(d, WritePropertyName(QualifiedName(prefix, name)));
      } else {
        assert d.calls + [] == d.calls;
      }
    case TextNode(v) =>
      AddKeepsBalance(d, TextValue(p, d.jsonValueType, v).value);
    case PI(name, v) =>
      if name == X.OBJECT_START {
        AddKeepsBalance(d, WriteStartObject);
      } else if name == X.OBJECT_END {
        AddKeepsBalance(d, WriteEndObject);
      } else if name == X.ARRAY_ITEM {
        ArrayItemKeepsBalance(d, ToInt32(v).value);
      } else if name == X.ARRAY_END {
        ArrayEndKeepsBalance(d, ToInt32(v).value);
      }
    case _ =>
  }

  lemma {:induction false} DecodeFromKeepsBalance(p: Parsers, d: Reader, nodes: seq<XmlNode>)
    requires Balanced(d) && DecodeFrom(p, d, nodes).Success?
    ensures Balanced(DecodeFrom(p, d, nodes).value)
    decreases |nodes|
  {
    if |nodes| > 0 {
      NextKeepsBalance(p, d, nodes[0]);
      DecodeFromKeepsBalance(p, Next(p, d, nodes[0]).value, nodes[1..]);
    }
  }

  // Whatever the document, the JSON written never closes more arrays than
  // it opens, and closes them all once every array-item id has seen its
  // array-end.
  lemma DecodeNeverOvercloses(p: Parsers, nodes: seq<XmlNode>)
    requires Decode(p, nodes).Success?
    ensures Count(Decode(p, nodes).value, WriteEndArray) <= Count(Decode(p, nodes).value, WriteStartArray)
    ensures DecodeFrom(p, Reader(None, {}, []), nodes).value.arrays == {} ==>
      Count(Decode(p, nodes).value, WriteEndArray) == Count(Decode(p, nodes).value, WriteStartArray)
  {
    DecodeFromKeepsBalance(p, Reader(None, {}, []), nodes);
  }

  // The array-item instruction the encoder writes for an id opens the
  // array when the id is new and does nothing else; the array-end
  // instruction closes it exactly when it was opened.
  lemma ArrayInstructionsReadBack(p: Parsers, d: Reader, id: int)
    requires X.InInt32(id)
    ensures Next(p, d, PI(X.ARRAY_ITEM, X.IntText(id))) ==
      Success(d.(calls := d.calls + (if id in d.arrays then [] else [WriteStartArray]), arrays := d.arrays + {id}))
    ensures Next(p, d, PI(X.ARRAY_END, X.IntText(id))) ==
      Success(d.(calls := d.calls + (if id in d.arrays then [WriteEndArray] else []), arrays := d.arrays - {id}))
  {
    ToInt32OfIntText(id);
  }

  // A second array-item for the same array writes nothing.
  lemma ArrayItemOpensOnce(p: Parsers, d: Reader, id: int)
    requires X.InInt32(id)
    ensures Next(p, d, PI(X.ARRAY_ITEM, X.IntText(id))).Success?
    ensures var d1 := Next(p, d, PI(X.ARRAY_ITEM, X.IntText(id))).value;
      Next(p, d1, PI(X.ARRAY_ITEM, X.IntText(id))) == Success(d1)
  {
    ArrayInstructionsReadBack(p, d, id);
    var d1 := Next(p, d, PI(X.ARRAY_ITEM, X.IntText(id))).value;
    ArrayInstructionsReadBack(p, d1, id);
    assert d1.arrays + {id} == d1.arrays && d1.calls + [] == d1.calls;
  }

  // The writer call for a scalar token, as JSON would have it.
  function Written(t: X.JsonToken): JsonCall
  {
    match t
    case String(s) => WriteString(s)
    case Integer(n) => WriteInteger(n)
    case Float(d) => WriteDecimal(if d.Some? then d.value else "")
    case Boolean(b) => WriteBoolean(b)
    case Date(s) => WriteDate(s)
    case Bytes(s) => WriteBytes(AsciiBytes(s))
    case _ => WriteNull
  }

  // The text and jx:type the encoder writes for a scalar read back as the
  // scalar itself. Bytes read back as the character codes of their
  // base64 text, not as the bytes encoded.
  // The decoder's parsers accept the date and decimal texts the encoder
  // writes for a token.
  predicate ReadsBack(p: Parsers, t: X.JsonToken)
  {
    (t.Date? ==> p.isDate(t.dateText)) &&
    (t.Float? && t.asDecimal.Some? ==> p.isNumber(t.asDecimal.value) && p.fitsDecimal(t.asDecimal.value))
  }

  lemma ScalarReadsBack(p: Parsers, t: X.JsonToken)
    requires X.IsScalar(t) && !t.Null? && (t.Integer? ==> X.InInt32(t.value)) && (t.Float? ==> t.asDecimal.Some?)
    requires ReadsBack(p, t)
    ensures TextValue(p, Some(X.ScalarType(t).Text()), X.ScalarText(t)) == Success(Written(t))
  {
    match t
    case Integer(n) => ToInt32OfIntText(n);
    case Boolean(b) => ToLowerKeepsLower(if b then "true" else "false");
    case _ =>
  }

  // Text in an element without a known jx:type is written as null.
  lemma UnknownTypeIsNull(p: Parsers, jsonValueType: Option<string>, v: string)
    requires jsonValueType !in
      {Some("boolean"), Some("bytes"), Some("date"), Some("decimal"), Some("integer"), Some("string")}
    ensures TextValue(p, jsonValueType, v) == Success(WriteNull)
  {
  }

  // ---------------------------------------------------------------------
  // From the encoder's writer calls to the nodes the XML reader reports.

  predicate IsXmlSpace(c: char)
  {
    c == ' ' || c == '\t' || c == '\n' || c == '\r'
  }

  // The attributes that follow a start tag.
  function LeadingAttributes(events: seq<X.XmlEvent>): (r: seq<(string, string)>)
    ensures |r| <= |events|
    ensures forall j :: 0 <= j < |r| ==> events[j] == X.Attribute(r[j].0, r[j].1)
  {
    if |events| > 0 && events[0].Attribute? then
      [(events[0].attrName, events[0].attrValue)] + LeadingAttributes(events[1..])
    else []
  }

  predicate IsBlank(v: string)
  {
    forall j :: 0 <= j < |v| ==> IsXmlSpace(v[j])
  }

  // Empty text is no node at all; text of white space only is a
  // white-space node.
  function TextNodes(v: string): (r: seq<XmlNode>)
    ensures |r| <= 1
    ensures !IsBlank(v) <==> r == [TextNode(v)]
    ensures IsBlank(v) ==> forall n :: n in r ==> n.Whitespace?
  {
    if v == [] then [] else if IsBlank(v) then [Whitespace(v)] else [TextNode(v)]
  }

  // The reader's nodes: each start tag with its attributes is one element
  // (its prefix is "" when it has none); the end of the document is no
  // node.
  function Nodes(events: seq<X.XmlEvent>): seq<XmlNode>
    decreases |events|
  {
    if |events| == 0 then []
    else
      match events[0]
      case StartElement(prefix, name) =>
        var attributes := LeadingAttributes(events[1..]);
        [Element(if prefix.Some? then prefix.value else "", name, attributes)] + Nodes(events[1 + |attributes|..])
      case Attribute(_, _) => Nodes(events[1..])
      case ProcessingInstruction(target, data) => [PI(target, data)] + Nodes(events[1..])
      case Text(v) => TextNodes(v) + Nodes(events[1..])
      case EndElement => [EndElementNode] + Nodes(events[1..])
      case EndDocument => Nodes(events[1..])
  }

  // Where a round trip stops: in the encoder or in the decoder.
  datatype RoundTripFailure = Encoding(encoderFailure: X.Failure) | Decoding(decoderFailure: ReadFailure)

  // The whole round trip: the JSON reader's tokens through the encoder and
  // back through the decoder.
  function RoundTrip(p: Parsers, tokens: seq<X.JsonToken>): Result<seq<JsonCall>, RoundTripFailure>
  {
    match X.Convert(X.Machine([], [], [], [], 0), tokens)
    case Failure(e) => Failure(Encoding(e))
    case Success(m) =>
      match Decode(p, Nodes(m.xml))
      case Failure(e) => Failure(Decoding(e))
      case Success(calls) => Success(calls)
  }

  // JsonTextWriter closes an object whose last property name has no value by
  // writing null for it (JsonWriter.WriteEnd in Json.NET): the calls as the
  // writer completes them.
  function AutoCompleted(calls: seq<JsonCall>): (r: seq<JsonCall>)
    ensures calls != [] ==> r != [] && r[0] == calls[0]
    ensures forall i :: 0 <= i < |r| - 1 && r[i].WritePropertyName? ==> r[i + 1] != WriteEndObject
    ensures forall i :: 0 <= i < |r| ==> r[i] in calls || r[i] == WriteNull
    ensures (forall i :: 0 <= i < |calls| - 1 && calls[i].WritePropertyName? ==> calls[i + 1] != WriteEndObject) ==>
      r == calls
  {
    if calls == [] then []
    else if |calls| >= 2 && calls[0].WritePropertyName? && calls[1] == WriteEndObject then
      [calls[0], WriteNull] + AutoCompleted(calls[1..])
    else
      [calls[0]] + AutoCompleted(calls[1..])
  }
}
