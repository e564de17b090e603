// The JSON-to-JXML encoder of the test utilities (Jxml/JsonToJxml.cs). It
// reads the token stream of a JSON reader and writes an XML document: every
// keyed value becomes an element named after its (cleaned) key, values carry
// their JSON type in a jx:type attribute, and processing instructions mark
// where objects start and end and which array an item belongs to. The whole
// document sits inside a jx:root element.
//
// The XML writer is modelled as the sequence of calls it receives; the JSON
// reader as the sequence of tokens it yields. The three stacks the class
// keeps between calls (tags, lineage, arrays) are fields of the class.
module JsonToJxml {
  import opened Wrappers

  const ROOT: string := "root"
  const OBJECT: string := "object"
  const VALUE: string := "value"
  const SUBSIB: string := "sub-sib"
  const TYPE: string := "type"
  const NAMESPACE_URI: string := "http://edennis.com/2013/jsonxml"
  const NAMESPACE_PREFIX: string := "jx"

  const OBJECT_START: string := "object-start"
  const OBJECT_END: string := "object-end"
  const ARRAY_ITEM: string := "array-item"
  const ARRAY_END: string := "array-end"

  // The jx:type values (JsonValueType.cs).
  datatype JsonValueType = ArrayType | ObjectType | BooleanType | BytesType | DateType
                         | DecimalType | IntegerType | StringType | NullType
  {
    function Text(): string
    {
      match this
      case ArrayType => "array"
      case ObjectType => "object"
      case BooleanType => "boolean"
      case BytesType => "bytes"
      case DateType => "date"
      case DecimalType => "decimal"
      case IntegerType => "integer"
      case StringType => "string"
      case NullType => "null"
    }
  }

  // The tokens of the JSON reader. Scalar payloads are what the encoder
  // hands to the XML writer: Float carries the XML text of the decimal the
  // double's text parses to, or None exactly when that text is not a plain
  // decimal numeral (exponent form, NaN, Infinity); Date
  // carries the writer's text of the parsed date, Bytes the base64 text.
  datatype JsonToken =
    | StartObject
    | StartArray
    | PropertyName(name: string)
    | String(text: string)
    | Integer(value: int)
    | Float(asDecimal: Option<string>)
    | Boolean(flag: bool)
    | Date(dateText: string)
    | Bytes(base64: string)
    | Null
    | EndObject
    | EndArray
    | Other            // comments, raw text and the other tokens the switch ignores

  // Calls on the XML writer. Attributes are always in the jx namespace.
  datatype XmlEvent =
    | StartElement(prefix: Option<string>, localName: string)
    | Attribute(attrName: string, attrValue: string)
    | ProcessingInstruction(target: string, data: string)
    | Text(text: string)
    | EndElement
    | EndDocument

  // The exceptions of ConvertToJxml.
  datatype Failure =
    | EmptyStack             // Peek or Pop on an empty Stack<T>
    | Overflow               // Convert.ToInt32 out of range
    | NotDecimalText         // Convert.ToDecimal: the double's text is not a plain numeral
    | InvalidName(name: string)  // the XML writer refuses an element name

  datatype JsonContextType = Root | Array | Object | Key

  // A lineage entry; ChildCount starts at 1 and counts the items of an array.
  datatype Parent = Parent(kind: JsonContextType, childCount: int)

  // An element tag; the namespace URI goes with the jx prefix.
  datatype Tag = Tag(prefix: Option<string>, name: string)

  // The encoder's state: its stacks (top last), what the writer has
  // received, and the source of fresh array ids.
  datatype Machine = Machine(tags: seq<Tag>, lineage: seq<Parent>, arrays: seq<int>,
                             xml: seq<XmlEvent>, nextId: int)

  function Last<T>(s: seq<T>): T
    requires |s| > 0
  {
    s[|s| - 1]
  }

  function Pop<T>(s: seq<T>): seq<T>
    requires |s| > 0
  {
    s[..|s| - 1]
  }

  predicate InInt32(n: int)
  {
    -0x8000_0000 <= n < 0x8000_0000
  }

  // ---------------------------------------------------------------------
  // Decimal text of integers (XmlConvert.ToString for int and the
  // interpolated id of a processing instruction).

  predicate IsDigit(c: char)
  {
    '0' <= c <= '9'
  }

  function DigitChar(d: nat): (c: char)
    requires d < 10
    ensures IsDigit(c) && c as int - '0' as int == d
  {
    ('0' as int + d) as char
  }

  function NatText(n: nat): (s: string)
    ensures |s| > 0 && forall i :: 0 <= i < |s| ==> IsDigit(s[i])
  {
    if n < 10 then [DigitChar(n)] else NatText(n / 10) + [DigitChar(n % 10)]
  }

  function IntText(n: int): (s: string)
    ensures |s| > 0
    ensures n < 0 <==> s[0] == '-'
  {
    if n < 0 then "-" + NatText(-n) else NatText(n)
  }

  // ---------------------------------------------------------------------
  // Element names: TAG_CLEAN_PATTERN and the names the XML writer accepts.

  predicate IsAsciiLetter(c: char)
  {
    'A' <= c <= 'Z' || 'a' <= c <= 'z'
  }

  // An XML local name (NCName) over ASCII: a letter or '_' first, then
  // letters, digits, '-', '.' and '_'. Both cleanings below produce ASCII
  // only, so no other character reaches the writer in an element name.
  predicate IsXmlName(s: string)
  {
    |s| > 0 && (IsAsciiLetter(s[0]) || s[0] == '_') &&
    forall i :: 0 < i < |s| ==> IsAsciiLetter(s[i]) || IsDigit(s[i]) || s[i] in "-._"
  }

  // First alternative of the pattern, `^[^A-Za-z]*`: leading non-letters go.
  function DropLeadingNonLetters(s: string): (r: string)
    ensures |r| <= |s| && r == s[|s| - |r|..]
    ensures r == [] || IsAsciiLetter(r[0])
    ensures forall i :: 0 <= i < |s| - |r| ==> !IsAsciiLetter(s[i])
  {
    if |s| == 0 || IsAsciiLetter(s[0]) then s else DropLeadingNonLetters(s[1..])
  }

  function KeepOnly(s: string, keep: char -> bool): (r: string)
    ensures |r| <= |s|
    ensures forall i :: 0 <= i < |r| ==> keep(r[i])
    ensures |s| > 0 && keep(s[0]) ==> |r| > 0 && r[0] == s[0]
    ensures (forall i :: 0 <= i < |s| ==> keep(s[i])) ==> r == s
  {
    if |s| == 0 then []
    else if keep(s[0]) then [s[0]] + KeepOnly(s[1..], keep)
    else KeepOnly(s[1..], keep)
  }

  // Second alternative as written, `[^A-Za-z0-9\\-_]*`: inside the class
  // `\\-_` is the RANGE from '\' to '_', that is '\', ']', '^' and '_'; the
  // hyphen itself is not kept.
  predicate KeptAsWritten(c: char)
  {
    IsAsciiLetter(c) || IsDigit(c) || '\\' <= c <= '_'
  }

  // The class evidently intended: letters, digits, '-' and '_'.
  predicate Kept(c: char)
  {
    IsAsciiLetter(c) || IsDigit(c) || c == '-' || c == '_'
  }

  // Regex.Replace(key, "") with the pattern as written.
  function CleanTagAsWritten(key: string): (r: string)
    ensures r == [] || IsAsciiLetter(r[0])
  {
    KeepOnly(DropLeadingNonLetters(key), KeptAsWritten)
  }

  lemma CleanTagAsWrittenDropsHyphen()
    ensures CleanTagAsWritten("a-b") == "ab"
  {
    assert DropLeadingNonLetters("a-b") == "a-b";
    assert KeepOnly("b", KeptAsWritten) == "b";
    assert KeepOnly("-b", KeptAsWritten) == "b";
  }

  // '^' survives the cleaning, and the writer then refuses the name.
  lemma CleanTagAsWrittenKeepsCaret()
    ensures CleanTagAsWritten("a^b") == "a^b" && !IsXmlName("a^b")
  {
    assert DropLeadingNonLetters("a^b") == "a^b";
    assert !("a^b"[1] in "-._");
  }

  // A name that starts with a letter and holds only kept characters passes
  // through the cleaning as written unchanged.
  lemma CleanTagAsWrittenKeepsCleanNames(key: string)
    requires key == [] || IsAsciiLetter(key[0])
    requires forall i :: 0 <= i < |key| ==> KeptAsWritten(key[i])
    ensures CleanTagAsWritten(key) == key
  {
  }

  // The cleaning with the intended class; CorrectedStep below uses it.
  function CleanTag(key: string): (r: string)
    ensures r == [] || IsXmlName(r)
    ensures forall i :: 0 <= i < |r| ==> Kept(r[i])
  {
    KeepOnly(DropLeadingNonLetters(key), Kept)
  }

  // A key is cleaned away entirely exactly when it has no ASCII letter.
  lemma CleanTagEmptyIff(key: string)
    ensures CleanTag(key) == [] <==> forall i :: 0 <= i < |key| ==> !IsAsciiLetter(key[i])
  {
    var d := DropLeadingNonLetters(key);
    if d != [] {
      assert Kept(d[0]);
      assert key[|key| - |d|] == d[0];
    } else {
      assert |key| - |d| == |key|;
    }
  }

  // Names already made of kept characters, starting with a letter, pass
  // through unchanged; so cleaning twice changes nothing.
  lemma CleanTagKeepsCleanNames(key: string)
    requires key == [] || IsAsciiLetter(key[0])
    requires forall i :: 0 <= i < |key| ==> Kept(key[i])
    ensures CleanTag(key) == key
  {
  }

  lemma CleanTagIdempotent(key: string)
    ensures CleanTag(CleanTag(key)) == CleanTag(key)
  {
    CleanTagKeepsCleanNames(CleanTag(key));
  }

  lemma CleanTagKeepsHyphen()
    ensures CleanTag("first-name") == "first-name"
  {
    CleanTagKeepsCleanNames("first-name");
  }

  lemma {:induction false} KeepOnlyAgrees(s: string, p: char -> bool, q: char -> bool)
    requires forall i :: 0 <= i < |s| ==> p(s[i]) == q(s[i])
    ensures KeepOnly(s, p) == KeepOnly(s, q)
    decreases |s|
  {
    if |s| > 0 {
      KeepOnlyAgrees(s[1..], p, q);
    }
  }

  // The two cleanings differ only on '-', '\\', ']' and '^': a key without
  // them is cleaned the same way by both.
  lemma CleanTagsAgree(key: string)
    requires forall i :: 0 <= i < |key| ==> key[i] !in "-\\]^"
    ensures CleanTagAsWritten(key) == CleanTag(key)
  {
    var d := DropLeadingNonLetters(key);
    forall i | 0 <= i < |d|
      ensures KeptAsWritten(d[i]) == Kept(d[i])
    {
      assert d[i] == key[|key| - |d| + i];
    }
    KeepOnlyAgrees(d, KeptAsWritten, Kept);
  }

  // ---------------------------------------------------------------------
  // The specification of one token: a function from the old state to the
  // new one, or to the exception the token raises. Nothing is promised
  // about the fields after an exception.

  function ArrayItem(id: int): XmlEvent
  {
    ProcessingInstruction(ARRAY_ITEM, IntText(id))
  }

  // How many lineage entries the first loop of WriteArrayItems moves: it
  // moves arrays from the top and stops after the first one whose
  // ChildCount is not 1. Failure: the loop peeks at an empty lineage.
  function Moved(lineage: seq<Parent>): (r: Result<nat, Failure>)
    ensures r.Success? ==> r.value <= |lineage|
    ensures r.Failure? ==> r.error == EmptyStack
  {
    if |lineage| == 0 then Failure(EmptyStack)
    else if Last(lineage).kind != Array then Success(0)
    else if Last(lineage).childCount != 1 then Success(1)
    else match Moved(Pop(lineage))
      case Success(k) => Success(k + 1)
      case Failure(e) => Failure(e)
  }

  // The array-item instructions WriteArrayItems writes: one per moved
  // array, the outermost first.
  function ArrayItems(lineage: seq<Parent>, arrays: seq<int>): (r: Result<seq<XmlEvent>, Failure>)
    ensures r.Failure? ==> r.error == EmptyStack
  {
    match Moved(lineage)
    case Failure(e) => Failure(e)
    case Success(k) =>
      if |arrays| < k then Failure(EmptyStack)
      else Success(ItemsFor(arrays[|arrays| - k..]))
  }

  // One array-item instruction per id, in the order given.
  function ItemsFor(ids: seq<int>): (r: seq<XmlEvent>)
    ensures |r| == |ids|
  {
    if |ids| == 0 then [] else [ArrayItem(ids[0])] + ItemsFor(ids[1..])
  }

  // The value tag of WriteValue and the object tag of StartObject: the
  // current key, or the given jx tag when there is none.
  function TagsWith(tags: seq<Tag>, name: string): (r: seq<Tag>)
    ensures |r| > 0
  {
    if |tags| == 0 then [Tag(Some(NAMESPACE_PREFIX), name)] else tags
  }

  function Bumped(lineage: seq<Parent>): seq<Parent>
    requires |lineage| > 0
  {
    Pop(lineage) + [Last(lineage).(childCount := Last(lineage).childCount + 1)]
  }

  function SubSib(p: Parent): seq<XmlEvent>
  {
    if p.childCount > 1 then [Attribute(SUBSIB, "true")] else []
  }

  function WriteValueSpec(m: Machine, text: string, t: JsonValueType): Result<Machine, Failure>
  {
    var tags := TagsWith(m.tags, VALUE);
    var tag := Last(tags);
    if !IsXmlName(tag.name) then Failure(InvalidName(tag.name))
    else if |m.lineage| == 0 then Failure(EmptyStack)
    else
      var open := m.xml + [StartElement(tag.prefix, tag.name), Attribute(TYPE, t.Text())];
      var top := Last(m.lineage);
      if top.kind == Array then
        match ArrayItems(m.lineage, m.arrays)
        case Failure(e) => Failure(e)
        case Success(items) =>
          Success(m.(tags := tags, lineage := Bumped(m.lineage),
                     xml := open + SubSib(top) + items + [Text(text), EndElement]))
      else
        Success(m.(tags := Pop(tags), xml := open + [Text(text), EndElement]))
  }

  function StartObjectSpec(m: Machine): Result<Machine, Failure>
  {
    var tags := TagsWith(m.tags, OBJECT);
    var tag := Last(tags);
    if |m.lineage| == 0 then Failure(EmptyStack)
    else
      var top := Last(m.lineage);
      if top.kind != Root && !IsXmlName(tag.name) then Failure(InvalidName(tag.name))
      else
        var open := m.xml + (if top.kind != Root then [StartElement(tag.prefix, tag.name)] else []);
        if top.kind == Array then
          match ArrayItems(m.lineage, m.arrays)
          case Failure(e) => Failure(e)
          case Success(items) =>
            Success(m.(tags := tags, lineage := Bumped(m.lineage) + [Parent(Object, 1)],
                       xml := open + SubSib(top) + items + [ProcessingInstruction(OBJECT_START, "")]))
        else
          Success(m.(tags := tags, lineage := m.lineage + [Parent(Object, 1)],
                     xml := open + [ProcessingInstruction(OBJECT_START, "")]))
  }

  function EndObjectSpec(m: Machine): Result<Machine, Failure>
  {
    var ended := m.xml + [ProcessingInstruction(OBJECT_END, "")];
    if |m.lineage| > 1 then
      var lineage := Pop(m.lineage);
      var tags := if Last(lineage).kind != Array && |m.tags| > 0 then Pop(m.tags) else m.tags;
      Success(m.(tags := tags, lineage := lineage, xml := ended + [EndElement]))
    else
      Success(m.(xml := ended))
  }

  function EndArraySpec(m: Machine): Result<Machine, Failure>
  {
    if |m.arrays| == 0 then Failure(EmptyStack)
    else
      Success(m.(arrays := Pop(m.arrays),
                 lineage := if |m.lineage| > 0 then Pop(m.lineage) else m.lineage,
                 tags := if |m.tags| > 0 then Pop(m.tags) else m.tags,
                 xml := m.xml + [ProcessingInstruction(ARRAY_END, IntText(Last(m.arrays)))]))
  }

  // One pass of the token loop's switch.
  function Step(m: Machine, t: JsonToken): Result<Machine, Failure>
  {
    match t
    case StartObject => StartObjectSpec(m)
    case StartArray =>
      Success(m.(arrays := m.arrays + [m.nextId], lineage := m.lineage + [Parent(Array, 1)],
                 nextId := m.nextId + 1))
    case PropertyName(key) => Success(m.(tags := m.tags + [Tag(None, CleanTagAsWritten(key))]))
    case String(s) => WriteValueSpec(m, s, StringType)
    case Integer(n) => if InInt32(n) then WriteValueSpec(m, IntText(n), IntegerType) else Failure(Overflow)
    case Float(d) => if d.Some? then WriteValueSpec(m, d.value, DecimalType) else Failure(NotDecimalText)
    case Boolean(b) => WriteValueSpec(m, if b then "true" else "false", BooleanType)
    case Date(s) => WriteValueSpec(m, s, DateType)
    case Bytes(s) => WriteValueSpec(m, s, BytesType)
    case Null => WriteValueSpec(m, "", NullType)
    case EndObject => EndObjectSpec(m)
    case EndArray => EndArraySpec(m)
    case Other => Success(m)
  }

  function Run(m: Machine, ts: seq<JsonToken>): Result<Machine, Failure>
    decreases |ts|
  {
    if |ts| == 0 then Success(m)
    else match Step(m, ts[0])
      case Failure(e) => Failure(e)
      case Success(m1) => Run(m1, ts[1..])
  }

  lemma RunFirst(m: Machine, ts: seq<JsonToken>)
    requires |ts| > 0
    ensures Step(m, ts[0]).Failure? ==> Run(m, ts) == Failure(Step(m, ts[0]).error)
    ensures Step(m, ts[0]).Success? ==> Run(m, ts) == Run(Step(m, ts[0]).value, ts[1..])
  {
  }

  // The state a conversion starts from: a fresh document holding the
  // jx:root start tag, and ROOT pushed on the lineage.
  function Started(m: Machine): (s: Machine)
    ensures s.xml == [StartElement(Some(NAMESPACE_PREFIX), ROOT)]
    ensures |s.lineage| > 0 && Last(s.lineage) == Parent(Root, 1)
  {
    m.(xml := [StartElement(Some(NAMESPACE_PREFIX), ROOT)], lineage := m.lineage + [Parent(Root, 1)])
  }

  function Convert(m: Machine, ts: seq<JsonToken>): Result<Machine, Failure>
  {
    match Run(Started(m), ts)
    case Failure(e) => Failure(e)
    case Success(m1) => Success(m1.(xml := m1.xml + [EndDocument]))
  }

  // ---------------------------------------------------------------------
  // The class.

  class JsonToJxml {
    var tags: seq<Tag>
    var lineage: seq<Parent>
    var arrays: seq<int>
    var xml: seq<XmlEvent>        // the calls received by the current writer
    var nextId: int               // stands for Guid.NewGuid().GetHashCode()

    constructor ()
      ensures tags == [] && lineage == [] && arrays == [] && xml == [] && nextId == 0
    {
      tags := [];
      lineage := [];
      arrays := [];
      xml := [];
      nextId := 0;
    }

    function Snapshot(): Machine
      reads this
    {
      Machine(tags, lineage, arrays, xml, nextId)
    }

    // The method's outcome and new state are the ones the specification gives.
    predicate Reaches(r: Outcome<Failure>, s: Result<Machine, Failure>)
      reads this
    {
      match s
      case Success(m) => r == Pass && Snapshot() == m
      case Failure(e) => r == Fail(e)
    }

    method ConvertToJxml(tokens: seq<JsonToken>) returns (r: Result<seq<XmlEvent>, Failure>)
      modifies this
      ensures match Convert(old(Snapshot()), tokens)
        case Success(m) => r == Success(m.xml) && Snapshot() == m
        case Failure(e) => r == Failure(e)
    {
      xml := [StartElement(Some(NAMESPACE_PREFIX), ROOT)];
      lineage := lineage + [Parent(Root, 1)];
      ghost var start := Snapshot();
      assert start == Started(old(Snapshot()));
      var i := 0;
      while i < |tokens|
        invariant 0 <= i <= |tokens|
        invariant Run(start, tokens) == Run(Snapshot(), tokens[i..])
      {
        ghost var before := Snapshot();
        RunFirst(before, tokens[i..]);
        assert tokens[i..][0] == tokens[i] && tokens[i..][1..] == tokens[i + 1..];
        var o := HandleToken(tokens[i]);
        if o.Fail? {
          assert Run(start, tokens) == Failure(o.error);
          r := Failure(o.error);
          return;
        }
        assert Step(before, tokens[i]) == Success(Snapshot());
        i := i + 1;
      }
      assert Run(start, tokens) == Success(Snapshot());
      xml := xml + [EndDocument];
      r := Success(xml);
    }

    method HandleToken(t: JsonToken) returns (r: Outcome<Failure>)
      modifies this
      ensures Reaches(r, Step(old(Snapshot()), t))
    {
      match t
      case StartObject =>
        r := StartObjectToken();
      case StartArray =>
        arrays := arrays + [nextId];
        nextId := nextId + 1;
        lineage := lineage + [Parent(Array, 1)];
        r := Pass;
      case PropertyName(key) =>
        tags := tags + [Tag(None, CleanTagAsWritten(key))];
        r := Pass;
      case String(s) =>
        r := WriteValue(s, StringType);
      case Integer(n) =>
        if !InInt32(n) {
          r := Fail(Overflow);
        } else {
          r := WriteValue(IntText(n), IntegerType);
        }
      case Float(d) =>
        if d.None? {
          r := Fail(NotDecimalText);
        } else {
          r := WriteValue(d.value, DecimalType);
        }
      case Boolean(b) =>
        r := WriteValue(if b then "true" else "false", BooleanType);
      case Date(s) =>
        r := WriteValue(s, DateType);
      case Bytes(s) =>
        r := WriteValue(s, BytesType);
      case Null =>
        r := WriteValue("", NullType);
      case EndObject =>
        xml := xml + [ProcessingInstruction(OBJECT_END, "")];
        if |lineage| > 1 {
          xml := xml + [EndElement];
          lineage := Pop(lineage);
          if Last(lineage).kind != Array && |tags| > 0 {
            tags := Pop(tags);
          }
        }
        r := Pass;
      case EndArray =>
        if |arrays| == 0 {
          r := Fail(EmptyStack);
          return;
        }
        var id := Last(arrays);
        arrays := Pop(arrays);
        xml := xml + [ProcessingInstruction(ARRAY_END, IntText(id))];
        if |lineage| > 0 {
          lineage := Pop(lineage);
        }
        if |tags| > 0 {
          tags := Pop(tags);
        }
        r := Pass;
      case Other =>
        r := Pass;
    }

    method StartObjectToken() returns (r: Outcome<Failure>)
      modifies this
      ensures Reaches(r, StartObjectSpec(old(Snapshot())))
    {
      tags := TagsWith(tags, OBJECT);
      if |lineage| == 0 {
        r := Fail(EmptyStack);
        return;
      }
      if Last(lineage).kind != Root {
        var tag := Last(tags);
        if !IsXmlName(tag.name) {
          r := Fail(InvalidName(tag.name));
          return;
        }
        xml := xml + [StartElement(tag.prefix, tag.name)];
      }
      if Last(lineage).kind == Array {
        xml := xml + SubSib(Last(lineage));
        r := WriteArrayItems();
        if r.Fail? {
          return;
        }
        lineage := Bumped(lineage);
      }
      xml := xml + [ProcessingInstruction(OBJECT_START, "")];
      lineage := lineage + [Parent(Object, 1)];
      r := Pass;
    }

    method WriteValue(text: string, t: JsonValueType) returns (r: Outcome<Failure>)
      modifies this
      ensures Reaches(r, WriteValueSpec(old(Snapshot()), text, t))
    {
      tags := TagsWith(tags, VALUE);
      var tag := Last(tags);
      if !IsXmlName(tag.name) {
        r := Fail(InvalidName(tag.name));
        return;
      }
      xml := xml + [StartElement(tag.prefix, tag.name), Attribute(TYPE, t.Text())];
      if |lineage| == 0 {
        r := Fail(EmptyStack);
        return;
      }
      if Last(lineage).kind == Array {
        xml := xml + SubSib(Last(lineage));
        r := WriteArrayItems();
        if r.Fail? {
          return;
        }
        lineage := Bumped(lineage);
      }
      xml := xml + [Text(text), EndElement];
      if Last(lineage).kind != Array {
        tags := Pop(tags);
      }
      r := Pass;
    }

    // Moves arrays from the lineage and arrays stacks to temporary stacks,
    // then moves them back, writing an array-item instruction for each.
    method WriteArrayItems() returns (r: Outcome<Failure>)
      modifies this
      ensures match ArrayItems(old(lineage), old(arrays))
        case Success(items) =>
          r == Pass && lineage == old(lineage) && arrays == old(arrays) && xml == old(xml) + items &&
          tags == old(tags) && nextId == old(nextId)
        case Failure(e) => r == Fail(e)
    {
      var tmpLineage, tmpArrays;
      r, tmpLineage, tmpArrays := MoveArrays();
      if r.Fail? {
        return;
      }
      ghost var l1, a1 := lineage, arrays;
      RestoreArrays(tmpLineage, tmpArrays);
      assert a1 + Reversed(tmpArrays) == old(arrays);
      assert Reversed(tmpArrays) == old(arrays)[|old(arrays)| - |tmpArrays|..];
    }

    // The first loop: move arrays up to and including the first one that
    // already has children.
    method MoveArrays() returns (r: Outcome<Failure>, tmpLineage: seq<Parent>, tmpArrays: seq<int>)
      modifies this`lineage, this`arrays
      ensures ArrayItems(old(lineage), old(arrays)).Failure? <==> r.Fail?
      ensures r.Fail? ==> r == Fail(EmptyStack)
      ensures r.Pass? ==>
        Moved(old(lineage)) == Success(|tmpLineage|) && |tmpArrays| == |tmpLineage| &&
        lineage + Reversed(tmpLineage) == old(lineage) && arrays + Reversed(tmpArrays) == old(arrays)
    {
      tmpLineage, tmpArrays := [], [];
      ghost var l0, a0 := lineage, arrays;
      var done := false;
      while !done
        invariant |tmpLineage| == |tmpArrays|
        invariant |lineage| + |tmpLineage| == |l0| && |arrays| + |tmpArrays| == |a0|
        invariant lineage + Reversed(tmpLineage) == l0 && arrays + Reversed(tmpArrays) == a0
        invariant !done ==> Moved(l0) == Shifted(Moved(lineage), |tmpLineage|)
        invariant done ==> Moved(l0) == Success(|tmpLineage|)
        decreases |lineage|, !done
      {
        if |lineage| == 0 {
          assert Moved(l0).Failure?;
          r := Fail(EmptyStack);
          return;
        }
        if Last(lineage).kind != Array {
          done := true;
        } else {
          if |arrays| == 0 {
            ArraysRunOut(l0, a0, lineage, |tmpArrays|);
            r := Fail(EmptyStack);
            return;
          }
          var top, id := Last(lineage), Last(arrays);
          MovedStep(lineage, |tmpLineage|);
          MoveOne(lineage, tmpLineage, l0);
          MoveOne(arrays, tmpArrays, a0);
          tmpLineage := tmpLineage + [top];
          lineage := Pop(lineage);
          tmpArrays := tmpArrays + [id];
          arrays := Pop(arrays);
          if top.childCount != 1 {
            done := true;
          }
        }
      }
      r := Pass;
    }

    // The second loop: write an array-item for each moved array, the
    // outermost first, and push it back.
    method RestoreArrays(tmpLineage0: seq<Parent>, tmpArrays0: seq<int>)
      requires |tmpLineage0| == |tmpArrays0|
      modifies this`lineage, this`arrays, this`xml
      ensures lineage == old(lineage) + Reversed(tmpLineage0)
      ensures arrays == old(arrays) + Reversed(tmpArrays0)
      ensures xml == old(xml) + ItemsFor(Reversed(tmpArrays0))
    {
      var tmpLineage, tmpArrays := tmpLineage0, tmpArrays0;
      while |tmpLineage| > 0
        invariant |tmpLineage| == |tmpArrays|
        invariant lineage + Reversed(tmpLineage) == old(lineage) + Reversed(tmpLineage0)
        invariant arrays + Reversed(tmpArrays) == old(arrays) + Reversed(tmpArrays0)
        invariant xml + ItemsFor(Reversed(tmpArrays)) == old(xml) + ItemsFor(Reversed(tmpArrays0))
      {
        var top, id := Last(tmpLineage), Last(tmpArrays);
        MoveBack(lineage, tmpLineage);
        MoveBack(arrays, tmpArrays);
        assert ItemsFor(Reversed(tmpArrays)) == [ArrayItem(id)] + ItemsFor(Reversed(Pop(tmpArrays)));
        xml := xml + [ArrayItem(id)];
        lineage := lineage + [top];
        tmpLineage := Pop(tmpLineage);
        arrays := arrays + [id];
        tmpArrays := Pop(tmpArrays);
      }
    }
  }

  // The arrays stack runs out while the lineage still has an array on top.
  lemma ArraysRunOut(l0: seq<Parent>, a0: seq<int>, lineage: seq<Parent>, m: nat)
    requires |lineage| > 0 && Last(lineage).kind == Array
    requires Moved(l0) == Shifted(Moved(lineage), m) && |a0| == m
    ensures ArrayItems(l0, a0).Failure?
  {
  }

  // One iteration of the first loop of WriteArrayItems.
  lemma MovedStep(l: seq<Parent>, n: nat)
    requires |l| > 0 && Last(l).kind == Array
    ensures Last(l).childCount == 1 ==> Shifted(Moved(l), n) == Shifted(Moved(Pop(l)), n + 1)
    ensures Last(l).childCount != 1 ==> Shifted(Moved(l), n) == Success(n + 1)
  {
  }

  // A stack's entries from the top down: the order they land in when moved
  // one by one onto another stack.
  function Reversed<T>(s: seq<T>): (r: seq<T>)
    ensures |r| == |s|
  {
    if |s| == 0 then [] else [Last(s)] + Reversed(Pop(s))
  }

  // Moving the top of s back onto p keeps p + Reversed(s).
  lemma MoveBack<T>(p: seq<T>, s: seq<T>)
    requires |s| > 0
    ensures p + Reversed(s) == (p + [Last(s)]) + Reversed(Pop(s))
    ensures (p + Reversed(s))[|p|] == Last(s)
  {
    var r := Reversed(Pop(s));
    assert Reversed(s) == [Last(s)] + r;
    assert p + ([Last(s)] + r) == (p + [Last(s)]) + r;
  }

  // Moving the top of s onto tmp keeps s + Reversed(tmp).
  lemma MoveOne<T>(s: seq<T>, tmp: seq<T>, whole: seq<T>)
    requires |s| > 0 && s + Reversed(tmp) == whole
    ensures Pop(s) + Reversed(tmp + [Last(s)]) == whole
  {
    MoveBack(Pop(s), tmp + [Last(s)]);
    assert Pop(tmp + [Last(s)]) == tmp;
    assert Pop(s) + [Last(s)] == s;
  }

  // Moved of a lineage whose top entries were moved away, counted back in.
  function Shifted(r: Result<nat, Failure>, n: nat): Result<nat, Failure>
  {
    match r
    case Success(k) => Success(k + n)
    case Failure(e) => Failure(e)
  }

  // ---------------------------------------------------------------------
  // Properties.

  // The first loop of WriteArrayItems moves the run of arrays on top of the
  // lineage, stopping after the first array that already has children; it
  // fails exactly when it runs through a lineage of first-item arrays.
  lemma {:induction false} MovedStops(l: seq<Parent>)
    ensures Moved(l).Success? ==>
      var k := Moved(l).value;
      |l| > 0 && (k == 0 <==> Last(l).kind != Array) &&
      (forall i :: |l| - k <= i < |l| ==> l[i].kind == Array) &&
      (forall i :: |l| - k < i < |l| ==> l[i].childCount == 1) &&
      (k > 0 ==> l[|l| - k].childCount != 1 || (|l| - k > 0 && l[|l| - k - 1].kind != Array))
    ensures Moved(l).Failure? <==> forall i :: 0 <= i < |l| ==> l[i].kind == Array && l[i].childCount == 1
    decreases |l|
  {
    if |l| > 0 && Last(l).kind == Array && Last(l).childCount == 1 {
      var p := Pop(l);
      MovedStops(p);
      assert forall i :: 0 <= i < |p| ==> p[i] == l[i];
      if Moved(p).Success? {
        var k := Moved(p).value;
        assert Moved(l) == Success(k + 1);
      }
    }
  }

  lemma {:induction false} ItemsForAt(ids: seq<int>, j: nat)
    requires j < |ids|
    ensures ItemsFor(ids)[j] == ArrayItem(ids[j])
    decreases j
  {
    if j > 0 {
      ItemsForAt(ids[1..], j - 1);
    }
  }

  // One array-item per moved array, outermost first: the j-th instruction
  // names the j-th of the moved arrays counted from the bottom of the stack.
  lemma ArrayItemsOutermostFirst(l: seq<Parent>, a: seq<int>)
    ensures ArrayItems(l, a).Success? <==> Moved(l).Success? && Moved(l).value <= |a|
    ensures ArrayItems(l, a).Success? ==>
      var k := Moved(l).value;
      |ArrayItems(l, a).value| == k &&
      forall j :: 0 <= j < k ==> ArrayItems(l, a).value[j] == ArrayItem(a[|a| - k + j])
  {
    if ArrayItems(l, a).Success? {
      var k := Moved(l).value;
      forall j | 0 <= j < k
        ensures ArrayItems(l, a).value[j] == ArrayItem(a[|a| - k + j])
      {
        ItemsForAt(a[|a| - k..], j);
      }
    }
  }

  // What the writer receives for a scalar token, and where the token's text
  // and jx:type come from.
  function ScalarType(t: JsonToken): JsonValueType
  {
    match t
    case Integer(_) => IntegerType
    case Float(_) => DecimalType
    case Boolean(_) => BooleanType
    case Date(_) => DateType
    case Bytes(_) => BytesType
    case Null => NullType
    case _ => StringType
  }

  predicate IsScalar(t: JsonToken)
  {
    t.String? || t.Integer? || t.Float? || t.Boolean? || t.Date? || t.Bytes? || t.Null?
  }

  function ScalarText(t: JsonToken): string
  {
    match t
    case String(s) => s
    case Integer(n) => IntText(n)
    case Float(d) => if d.Some? then d.value else ""
    case Boolean(b) => if b then "true" else "false"
    case Date(s) => s
    case Bytes(s) => s
    case _ => ""
  }

  // A scalar that converts is written by WriteValue with its text and type.
  lemma ScalarStep(m: Machine, t: JsonToken)
    requires IsScalar(t) && Step(m, t).Success?
    ensures Step(m, t) == WriteValueSpec(m, ScalarText(t), ScalarType(t))
  {
  }

  // The instructions WriteArrayItems writes are processing instructions,
  // never attributes.
  lemma ArrayItemsAreInstructions(l: seq<Parent>, a: seq<int>)
    requires ArrayItems(l, a).Success?
    ensures forall j :: 0 <= j < |ArrayItems(l, a).value| ==> ArrayItems(l, a).value[j].ProcessingInstruction?
  {
    ArrayItemsOutermostFirst(l, a);
  }

  // The element a value is written in: its start tag and jx:type first,
  // then jx:sub-sib exactly when it is a later item of an array, and its
  // text and end tag last.
  lemma WriteValueElement(m: Machine, text: string, ty: JsonValueType, m1: Machine)
    requires WriteValueSpec(m, text, ty) == Success(m1)
    ensures |m.lineage| > 0
    ensures var tag := Last(TagsWith(m.tags, VALUE));
      |m1.xml| >= |m.xml| + 4 &&
      m1.xml[..|m.xml| + 2] == m.xml + [StartElement(tag.prefix, tag.name), Attribute(TYPE, ty.Text())] &&
      m1.xml[|m1.xml| - 2..] == [Text(text), EndElement]
    ensures var top := Last(m.lineage);
      (m1.xml[|m.xml| + 2] == Attribute(SUBSIB, "true") <==> top.kind == Array && top.childCount > 1)
  {
    var tag := Last(TagsWith(m.tags, VALUE));
    var open := m.xml + [StartElement(tag.prefix, tag.name), Attribute(TYPE, ty.Text())];
    var top := Last(m.lineage);
    var rest: seq<XmlEvent>;
    if top.kind == Array {
      var items := ArrayItems(m.lineage, m.arrays).value;
      ArrayItemsAreInstructions(m.lineage, m.arrays);
      rest := SubSib(top) + items + [Text(text), EndElement];
      if top.childCount <= 1 && |items| > 0 {
        assert rest[0] == items[0];
      }
    } else {
      rest := [Text(text), EndElement];
    }
    assert m1.xml == open + rest;
    assert |rest| >= 2 && rest[|rest| - 2..] == [Text(text), EndElement];
    assert m1.xml[|m.xml| + 2] == rest[0];
    assert m1.xml[|m1.xml| - 2..] == rest[|rest| - 2..];
    assert m1.xml[..|m.xml| + 2] == open;
  }

  // The stacks after a value: inside an array the array's child count
  // rises by one and the key stays for the next item; elsewhere the key
  // is used up.
  lemma WriteValueStacks(m: Machine, text: string, ty: JsonValueType, m1: Machine)
    requires WriteValueSpec(m, text, ty) == Success(m1)
    ensures |m.lineage| > 0
    ensures var top := Last(m.lineage);
      if top.kind == Array then
        m1.lineage == Pop(m.lineage) + [top.(childCount := top.childCount + 1)] &&
        m1.tags == TagsWith(m.tags, VALUE)
      else
        m1.lineage == m.lineage && m1.tags == Pop(TagsWith(m.tags, VALUE))
    ensures m1.arrays == m.arrays && m1.nextId == m.nextId
  {
  }

  // Every scalar becomes one element with a jx:type attribute naming its
  // JSON type, named after the current key, or jx:value when there is none.
  lemma ScalarWritesTypedElement(m: Machine, t: JsonToken, m1: Machine)
    requires IsScalar(t) && Step(m, t) == Success(m1)
    ensures |m.lineage| > 0
    ensures var tag := if |m.tags| == 0 then Tag(Some(NAMESPACE_PREFIX), VALUE) else Last(m.tags);
      |m1.xml| >= |m.xml| + 4 &&
      m1.xml[..|m.xml| + 2] == m.xml + [StartElement(tag.prefix, tag.name), Attribute(TYPE, ScalarType(t).Text())] &&
      m1.xml[|m1.xml| - 2..] == [Text(ScalarText(t)), EndElement]
    ensures var top := Last(m.lineage);
      (m1.xml[|m.xml| + 2] == Attribute(SUBSIB, "true") <==> top.kind == Array && top.childCount > 1)
  {
    ScalarStep(m, t);
    WriteValueElement(m, ScalarText(t), ScalarType(t), m1);
  }

  // StartObject: a keyless object is tagged jx:object; an element is opened
  // unless the object is the root value; inside a later item of an array
  // the element carries jx:sub-sib; object-start is written last.
  lemma StartObjectWritesObjectStart(m: Machine, m1: Machine)
    requires Step(m, StartObject) == Success(m1)
    ensures |m.lineage| > 0 && |m1.xml| > |m.xml| && m1.xml[..|m.xml|] == m.xml
    ensures Last(m1.xml) == ProcessingInstruction(OBJECT_START, "")
    ensures var tag := Last(TagsWith(m.tags, OBJECT));
      Last(m.lineage).kind != Root <==> m1.xml[|m.xml|] == StartElement(tag.prefix, tag.name)
    ensures var top := Last(m.lineage);
      top.kind == Array ==> (m1.xml[|m.xml| + 1] == Attribute(SUBSIB, "true") <==> top.childCount > 1)
  {
    var tag := Last(TagsWith(m.tags, OBJECT));
    var top := Last(m.lineage);
    var pi := ProcessingInstruction(OBJECT_START, "");
    if top.kind == Array {
      var items := StartObjectInArray(m, m1);
      var r := SubSib(top) + items + [pi];
      assert m1.xml == m.xml + [StartElement(tag.prefix, tag.name)] + r;
      assert m1.xml[|m.xml| + 1] == r[0];
      if top.childCount <= 1 && |items| > 0 {
        assert r[0] == items[0];
      }
    } else if top.kind != Root {
      assert m1.xml == m.xml + [StartElement(tag.prefix, tag.name), pi];
    } else {
      assert m1.xml == m.xml + [pi];
    }
  }

  // The document StartObject writes inside an array.
  lemma StartObjectInArray(m: Machine, m1: Machine) returns (items: seq<XmlEvent>)
    requires Step(m, StartObject) == Success(m1)
    ensures |m.lineage| > 0
    ensures Last(m.lineage).kind == Array ==>
      ArrayItems(m.lineage, m.arrays) == Success(items) &&
      (forall j :: 0 <= j < |items| ==> items[j].ProcessingInstruction?) &&
      m1.xml == m.xml + [StartElement(Last(TagsWith(m.tags, OBJECT)).prefix, Last(TagsWith(m.tags, OBJECT)).name)] +
        SubSib(Last(m.lineage)) + items + [ProcessingInstruction(OBJECT_START, "")]
  {
    items := [];
    if Last(m.lineage).kind == Array {
      items := ArrayItems(m.lineage, m.arrays).value;
      ArrayItemsAreInstructions(m.lineage, m.arrays);
    }
  }

  // ... and the stacks: the tag stays, the array's child count rises,
  // OBJECT is pushed.
  lemma StartObjectStacks(m: Machine, m1: Machine)
    requires Step(m, StartObject) == Success(m1)
    ensures |m.lineage| > 0 && |m1.lineage| == |m.lineage| + 1
    ensures m1.lineage[..|m.lineage| - 1] == Pop(m.lineage) && Last(m1.lineage) == Parent(Object, 1)
    ensures var top := Last(m.lineage);
      m1.lineage[|m.lineage| - 1] == if top.kind == Array then top.(childCount := top.childCount + 1) else top
    ensures m1.tags == TagsWith(m.tags, OBJECT)
    ensures m1.arrays == m.arrays && m1.nextId == m.nextId
  {
  }

  // EndObject always writes object-end and closes an element unless only
  // ROOT is left; EndArray fails exactly on an empty arrays stack and
  // otherwise writes array-end with the id it pops.
  lemma EndTokensMarkTheirEnds(m: Machine)
    ensures Step(m, EndObject).Success?
    ensures var m1 := Step(m, EndObject).value;
      m1.xml == m.xml + [ProcessingInstruction(OBJECT_END, "")] + (if |m.lineage| > 1 then [EndElement] else []) &&
      m1.lineage == (if |m.lineage| > 1 then Pop(m.lineage) else m.lineage) && m1.arrays == m.arrays
    ensures Step(m, EndArray).Success? <==> |m.arrays| > 0
    ensures |m.arrays| > 0 ==>
      var m1 := Step(m, EndArray).value;
      m1.xml == m.xml + [ProcessingInstruction(ARRAY_END, IntText(Last(m.arrays)))] &&
      m1.arrays == Pop(m.arrays)
  {
  }

  // The written document only grows.
  lemma StepAppends(m: Machine, t: JsonToken)
    requires Step(m, t).Success?
    ensures m.xml <= Step(m, t).value.xml
  {
    var m1 := Step(m, t).value;
    if t.StartObject? {
      StartObjectWritesObjectStart(m, m1);
    } else if IsScalar(t) {
      ScalarWritesTypedElement(m, t, m1);
      assert m1.xml[..|m.xml|] == m1.xml[..|m.xml| + 2][..|m.xml|];
    }
  }

  lemma {:induction false} RunAppends(m: Machine, ts: seq<JsonToken>)
    requires Run(m, ts).Success?
    ensures m.xml <= Run(m, ts).value.xml
    decreases |ts|
  {
    if |ts| > 0 {
      StepAppends(m, ts[0]);
      RunAppends(Step(m, ts[0]).value, ts[1..]);
    }
  }

  // The document is wrapped in jx:root and ends with the end of the
  // document; the lineage has ROOT on top when the first token is read.
  lemma ConvertWrapsInRoot(m: Machine, ts: seq<JsonToken>)
    ensures Last(Started(m).lineage) == Parent(Root, 1) && Started(m).lineage[..|m.lineage|] == m.lineage
    ensures Convert(m, ts).Success? ==>
      var xml := Convert(m, ts).value.xml;
      |xml| >= 2 && xml[0] == StartElement(Some(NAMESPACE_PREFIX), ROOT) && Last(xml) == EndDocument
  {
    if Convert(m, ts).Success? {
      RunAppends(Started(m), ts);
    }
  }

  // Array ids: every open array has its own id, below the next fresh one.
  predicate FreshIds(m: Machine)
  {
    (forall i, j :: 0 <= i < j < |m.arrays| ==> m.arrays[i] < m.arrays[j]) &&
    (forall i :: 0 <= i < |m.arrays| ==> m.arrays[i] < m.nextId)
  }

  lemma StepKeepsFreshIds(m: Machine, t: JsonToken)
    requires FreshIds(m) && Step(m, t).Success?
    ensures FreshIds(Step(m, t).value)
  {
    var m1 := Step(m, t).value;
    if t.StartObject? {
      StartObjectStacks(m, m1);
    } else if IsScalar(t) {
      ScalarStep(m, t);
      WriteValueStacks(m, ScalarText(t), ScalarType(t), m1);
    }
  }

  lemma {:induction false} RunKeepsFreshIds(m: Machine, ts: seq<JsonToken>)
    requires FreshIds(m) && Run(m, ts).Success?
    ensures FreshIds(Run(m, ts).value)
    decreases |ts|
  {
    if |ts| > 0 {
      StepKeepsFreshIds(m, ts[0]);
      RunKeepsFreshIds(Step(m, ts[0]).value, ts[1..]);
    }
  }

  // Element names with the cleaning as written: every tag on the stack is
  // empty or starts with a letter and holds only letters, digits and the
  // characters from '\\' to '_'. The writer can then refuse a key that
  // cleaned away to nothing, or one that kept '\\', ']' or '^'.
  predicate TagsAsWritten(m: Machine)
  {
    forall i :: 0 <= i < |m.tags| ==>
      var name := m.tags[i].name;
      name == [] || (IsAsciiLetter(name[0]) && forall j :: 0 <= j < |name| ==> KeptAsWritten(name[j]))
  }

  lemma StepKeepsTagsAsWritten(m: Machine, t: JsonToken)
    requires TagsAsWritten(m) && Step(m, t).Success?
    ensures TagsAsWritten(Step(m, t).value)
  {
    var m1 := Step(m, t).value;
    if t.StartObject? {
      StartObjectStacks(m, m1);
    } else if IsScalar(t) {
      ScalarStep(m, t);
      WriteValueStacks(m, ScalarText(t), ScalarType(t), m1);
    }
  }

  lemma RefusedNamesAsWritten(m: Machine, t: JsonToken, name: string)
    requires TagsAsWritten(m) && Step(m, t) == Failure(InvalidName(name))
    ensures name == [] || exists j :: 0 <= j < |name| && name[j] in "\\]^"
  {
    if name != [] && forall j :: 0 <= j < |name| ==> name[j] !in "\\]^" {
      assert IsXmlName(name);
      assert false;
    }
  }

  // A key with a caret is pushed unchanged, and the value under it is
  // refused by the writer.
  lemma CaretKeyRefused(xml: seq<XmlEvent>)
    ensures var m := Machine([], [Parent(Object, 1)], [], xml, 0);
      Run(m, [PropertyName("a^b"), String("x")]) == Failure(InvalidName("a^b"))
  {
    CleanTagAsWrittenKeepsCaret();
    var m := Machine([], [Parent(Object, 1)], [], xml, 0);
    var m1 := m.(tags := [Tag(None, "a^b")]);
    assert m.tags + [Tag(None, CleanTagAsWritten("a^b"))] == [Tag(None, "a^b")];
    assert Step(m, PropertyName("a^b")) == Success(m1);
    assert Step(m1, String("x")) == Failure(InvalidName("a^b"));
    RunFirst(m, [PropertyName("a^b"), String("x")]);
    assert [PropertyName("a^b"), String("x")][1..] == [String("x")];
  }

  // The step with the intended cleaning of keys; every other token is
  // handled as Step handles it.
  function CorrectedStep(m: Machine, t: JsonToken): (r: Result<Machine, Failure>)
    ensures !t.PropertyName? ==> r == Step(m, t)
    ensures t.PropertyName? ==> r == Success(m.(tags := m.tags + [Tag(None, CleanTag(t.name))]))
  {
    match t
    case PropertyName(key) => Success(m.(tags := m.tags + [Tag(None, CleanTag(key))]))
    case _ => Step(m, t)
  }

  // With the intended cleaning every tag on the stack is a cleaned key or a
  // jx name, so the writer can refuse only a key that cleaned away to
  // nothing.
  predicate CleanTags(m: Machine)
  {
    CleanTagStack(m.tags)
  }

  predicate CleanTagStack(tags: seq<Tag>)
  {
    forall i :: 0 <= i < |tags| ==> tags[i].name == [] || IsXmlName(tags[i].name)
  }

  lemma CleanTagStackPop(tags: seq<Tag>)
    requires CleanTagStack(tags) && |tags| > 0
    ensures CleanTagStack(Pop(tags))
  {
  }

  lemma CleanTagStackPush(tags: seq<Tag>, tag: Tag)
    requires CleanTagStack(tags) && (tag.name == [] || IsXmlName(tag.name))
    ensures CleanTagStack(tags + [tag])
  {
  }

  lemma CleanTagStackWith(tags: seq<Tag>, name: string)
    requires CleanTagStack(tags) && IsXmlName(name)
    ensures CleanTagStack(TagsWith(tags, name)) && CleanTagStack(Pop(TagsWith(tags, name)))
  {
  }

  lemma {:induction false} StepKeepsCleanTags(m: Machine, t: JsonToken)
    requires CleanTags(m) && CorrectedStep(m, t).Success?
    ensures CleanTags(CorrectedStep(m, t).value)
  {
    var m1 := CorrectedStep(m, t).value;
    match t {
      case PropertyName(key) =>
        CleanTagStackPush(m.tags, Tag(None, CleanTag(key)));
      case StartObject =>
        assert IsXmlName(OBJECT);
        StartObjectStacks(m, m1);
        CleanTagStackWith(m.tags, OBJECT);
      case EndObject =>
        if |m.lineage| > 1 && Last(Pop(m.lineage)).kind != Array && |m.tags| > 0 {
          CleanTagStackPop(m.tags);
        }
      case EndArray =>
        if |m.tags| > 0 {
          CleanTagStackPop(m.tags);
        }
      case StartArray =>
      case Other =>
      case _ =>
        assert IsXmlName(VALUE);
        ScalarStep(m, t);
        WriteValueStacks(m, ScalarText(t), ScalarType(t), m1);
        CleanTagStackWith(m.tags, VALUE);
    }
  }

  lemma OnlyEmptyNamesRefused(m: Machine, t: JsonToken, name: string)
    requires CleanTags(m) && CorrectedStep(m, t) == Failure(InvalidName(name))
    ensures name == []
  {
    assert IsXmlName(OBJECT) && IsXmlName(VALUE);
  }
}
