// A JSON writer as the serializers see it: a sequence of tokens appended one
// call at a time, and the writer state that decides which call it accepts.
//
// The state follows Json.NET's JsonWriter: a property name is accepted at the
// start or directly inside an object that is not already waiting for a value;
// a value or the start of a container is refused inside an object that has no
// pending property name; an end must close the innermost open container.
// System.Text.Json's Utf8JsonWriter refuses the same calls on every path the
// static serializer can take. The depth is the number of open containers
// (JsonWriter.Top, Utf8JsonWriter.CurrentDepth).
module JsonTokens {
  import opened Wrappers
  import opened ObjectGraph

  datatype Token =
    | PropertyName(name: string)
    | NullPropertyName         // WritePropertyName(null); JsonTextWriter renders it as ""
    | StartObject | EndObject | StartArray | EndArray
    | ValueOf(v: Value)        // JsonWriter.WriteValue(object): Json.NET's own rendering
    | StringValue(s: string)   // a string value
    | NumberValue(s: string)   // a number, as its decimal text
    | BoolValue(b: bool)
    | NullValue
    | RawValue(v: Value)       // WriteRawValue(JToken.FromObject(v).ToString())

  datatype Container = InObject | InArray

  function NameToken(name: Option<string>): Token
  {
    if name.Some? then PropertyName(name.value) else NullPropertyName
  }

  // Net change in open containers caused by a token.
  function Delta(t: Token): int
  {
    match t
    case StartObject | StartArray => 1
    case EndObject | EndArray => -1
    case _ => 0
  }

  function NetDepth(ts: seq<Token>): int
  {
    if ts == [] then 0 else NetDepth(ts[..|ts| - 1]) + Delta(ts[|ts| - 1])
  }

  lemma {:induction false} NetDepthAppend(a: seq<Token>, b: seq<Token>)
    ensures NetDepth(a + b) == NetDepth(a) + NetDepth(b)
  {
    if b == [] {
      assert a + b == a;
    } else {
      var b' := b[..|b| - 1];
      assert (a + b)[..|a + b| - 1] == a + b';
      NetDepthAppend(a, b');
    }
  }

  // t1 extends t0, and no appended token is an ignored property name.
  ghost predicate Appends(t0: seq<Token>, t1: seq<Token>, ignore: set<string>)
  {
    |t0| <= |t1| && t1[..|t0|] == t0 &&
    forall i :: |t0| <= i < |t1| ==> !(t1[i].PropertyName? && t1[i].name in ignore)
  }

  lemma AppendsTrans(t0: seq<Token>, t1: seq<Token>, t2: seq<Token>, ignore: set<string>)
    requires Appends(t0, t1, ignore) && Appends(t1, t2, ignore)
    ensures Appends(t0, t2, ignore)
  {
    assert t2[..|t0|] == t2[..|t1|][..|t0|];
  }

  lemma AppendsToken(t0: seq<Token>, t: Token, ignore: set<string>)
    requires !(t.PropertyName? && t.name in ignore)
    ensures Appends(t0, t0 + [t], ignore)
  {
    assert (t0 + [t])[..|t0|] == t0;
  }

  function NameTokens(name: Option<string>): seq<Token>
  {
    if name.Some? then [PropertyName(name.value)] else []
  }

  // The runs a loop appends, concatenated in order.
  function Flatten(runs: seq<seq<Token>>): seq<Token>
  {
    if runs == [] then [] else Flatten(runs[..|runs| - 1]) + runs[|runs| - 1]
  }

  lemma FlattenSnoc(runs: seq<seq<Token>>, run: seq<Token>)
    ensures Flatten(runs + [run]) == Flatten(runs) + run
  {
    assert (runs + [run])[..|runs|] == runs;
  }

  // The deepest nesting of containers reached while the tokens are read
  // from the start.
  function Nesting(ts: seq<Token>): int
  {
    if ts == [] then 0
    else
      var n := Nesting(ts[..|ts| - 1]);
      if n < NetDepth(ts) then NetDepth(ts) else n
  }

  // The number of container levels a walk may still open from depth d.
  function Levels(d: int, maxDepth: int): nat
  {
    if d > maxDepth then 0 else maxDepth + 1 - d
  }

  lemma NestingAtLeast(a: seq<Token>)
    ensures Nesting(a) >= 0 && Nesting(a) >= NetDepth(a)
  {
  }

  lemma {:induction false} NestingAppend(a: seq<Token>, b: seq<Token>)
    ensures Nesting(a + b) == (if Nesting(a) < NetDepth(a) + Nesting(b) then NetDepth(a) + Nesting(b) else Nesting(a))
  {
    NestingAtLeast(a);
    if b == [] {
      assert a + b == a;
    } else {
      var b' := b[..|b| - 1];
      assert (a + b)[..|a + b| - 1] == a + b';
      NestingAppend(a, b');
      NetDepthAppend(a, b);
      NetDepthAppend(a, b');
      NestingAtLeast(b');
    }
  }

  // A run appended between a property name with an opening bracket and the
  // closing bracket, read back by position.
  lemma BracketedSlices(t0: seq<Token>, name: Option<string>, open: Token, body: seq<Token>, close: Token)
    ensures var ts := t0 + NameTokens(name) + [open] + body + [close];
      |ts| >= |t0| + |NameTokens(name)| + 2 &&
      ts[|t0|..|t0| + |NameTokens(name)| + 1] == NameTokens(name) + [open] &&
      ts[|ts| - 1] == close &&
      ts[|t0|..] == NameTokens(name) + [open] + body + [close]
  {
    var ts := t0 + NameTokens(name) + [open] + body + [close];
    assert ts[|t0|..] == NameTokens(name) + [open] + body + [close];
    assert ts[|t0|..][..|NameTokens(name)| + 1] == NameTokens(name) + [open];
  }

  // Tokens that open and close nothing nest nowhere.
  lemma {:induction false} FlatRun(ts: seq<Token>)
    requires forall i :: 0 <= i < |ts| ==> Delta(ts[i]) == 0
    ensures NetDepth(ts) == 0 && Nesting(ts) == 0
  {
    if ts != [] {
      FlatRun(ts[..|ts| - 1]);
    }
  }

  // Balanced runs, each nesting at most k deep, concatenate to a balanced run
  // nesting at most k deep.
  lemma {:induction false} FlattenBounded(runs: seq<seq<Token>>, k: nat)
    requires forall i :: 0 <= i < |runs| ==> NetDepth(runs[i]) == 0 && Nesting(runs[i]) <= k
    ensures NetDepth(Flatten(runs)) == 0 && Nesting(Flatten(runs)) <= k
  {
    if runs != [] {
      var init := runs[..|runs| - 1];
      FlattenBounded(init, k);
      NetDepthAppend(Flatten(init), runs[|runs| - 1]);
      NestingAppend(Flatten(init), runs[|runs| - 1]);
    }
  }

  // A balanced body nesting at most k deep, between a property name and
  // brackets, is a balanced run nesting at most k + 1 deep.
  lemma BracketedBounded(name: Option<string>, open: Token, body: seq<Token>, close: Token, k: nat)
    requires Delta(open) == 1 && Delta(close) == -1
    requires NetDepth(body) == 0 && Nesting(body) <= k
    ensures NetDepth(NameTokens(name) + [open] + body + [close]) == 0
    ensures Nesting(NameTokens(name) + [open] + body + [close]) <= k + 1
  {
    var pre := NameTokens(name) + [open];
    assert NetDepth(NameTokens(name)) == 0 && Nesting(NameTokens(name)) == 0 by {
      if name.Some? {
        assert NameTokens(name)[..0] == [];
      }
    }
    assert NetDepth(pre) == 1 && Nesting(pre) == 1 by {
      assert pre[..|pre| - 1] == NameTokens(name);
    }
    NetDepthAppend(pre, body);
    NestingAppend(pre, body);
    NetDepthAppend(pre + body, [close]);
    NestingAppend(pre + body, [close]);
    assert [close][..0] == [];
  }

  class JsonWriter {
    var tokens: seq<Token>
    var open: seq<Container>
    var afterName: bool

    // Writer.Top / CurrentDepth.
    function Depth(): nat
      reads this
    {
      |open|
    }

    // The writer accepts a property name now.
    predicate AcceptsName()
      reads this
    {
      !afterName && (open == [] || open[|open| - 1] == InObject)
    }

    // The writer accepts a value or the start of a container now.
    predicate AcceptsValue()
      reads this
    {
      afterName || open == [] || open[|open| - 1] == InArray
    }

    // The writer is inside an object and waiting for a property name.
    predicate AwaitingName()
      reads this
    {
      !afterName && open != [] && open[|open| - 1] == InObject
    }

    constructor ()
      ensures tokens == [] && open == [] && !afterName
    {
      tokens := [];
      open := [];
      afterName := false;
    }

    method WritePropertyName(name: Option<string>) returns (ok: bool)
      modifies this
      ensures ok == old(AcceptsName())
      ensures ok ==> tokens == old(tokens) + [NameToken(name)] && open == old(open) && afterName
      ensures !ok ==> unchanged(this)
    {
      ok := AcceptsName();
      if ok {
        tokens := tokens + [NameToken(name)];
        afterName := true;
      }
    }

    // Any scalar token: a value, a string, a number, a boolean, null or raw text.
    method WriteScalar(t: Token) returns (ok: bool)
      requires Delta(t) == 0 && !t.PropertyName? && !t.NullPropertyName?
      modifies this
      ensures ok == old(AcceptsValue())
      ensures ok ==> tokens == old(tokens) + [t] && open == old(open) && !afterName
      ensures !ok ==> unchanged(this)
    {
      ok := AcceptsValue();
      if ok {
        tokens := tokens + [t];
        afterName := false;
      }
    }

    method WriteStart(c: Container) returns (ok: bool)
      modifies this
      ensures ok == old(AcceptsValue())
      ensures ok ==> tokens == old(tokens) + [if c == InObject then StartObject else StartArray]
      ensures ok ==> open == old(open) + [c] && !afterName
      ensures !ok ==> unchanged(this)
    {
      ok := AcceptsValue();
      if ok {
        tokens := tokens + [if c == InObject then StartObject else StartArray];
        open := open + [c];
        afterName := false;
      }
    }

    method WriteEnd(c: Container) returns (ok: bool)
      modifies this
      ensures ok == (old(open) != [] && old(open)[|old(open)| - 1] == c && !old(afterName))
      ensures ok ==> tokens == old(tokens) + [if c == InObject then EndObject else EndArray]
      ensures ok ==> open == old(open)[..|old(open)| - 1] && !afterName
      ensures !ok ==> unchanged(this)
    {
      ok := open != [] && open[|open| - 1] == c && !afterName;
      if ok {
        tokens := tokens + [if c == InObject then EndObject else EndArray];
        open := open[..|open| - 1];
      }
    }
  }

  // The property name, when there is one, and the opening bracket of a
  // container; an ignored name is never written.
  method OpenContainer(jw: JsonWriter, name: Option<string>, c: Container, ignore: set<string>) returns (ok: bool)
    requires name.Some? ==> jw.AwaitingName() && name.value !in ignore
    modifies jw
    ensures ok == (name.Some? || old(jw.AcceptsValue()))
    ensures Appends(old(jw.tokens), jw.tokens, ignore)
    ensures ok ==> jw.tokens == old(jw.tokens) + NameTokens(name) + [if c == InObject then StartObject else StartArray]
    ensures ok ==> jw.open == old(jw.open) + [c] && !jw.afterName
  {
    if name.Some? {
      AppendsToken(jw.tokens, PropertyName(name.value), ignore);
      ok := jw.WritePropertyName(name);
      assert ok;
    }
    ghost var t1 := jw.tokens;
    AppendsToken(jw.tokens, if c == InObject then StartObject else StartArray, ignore);
    ok := jw.WriteStart(c);
    AppendsTrans(old(jw.tokens), t1, jw.tokens, ignore);
  }

  // A property name followed by one scalar value.
  method WriteNamedScalar(jw: JsonWriter, name: string, t: Token, ignore: set<string>)
    requires jw.AwaitingName() && name !in ignore
    requires Delta(t) == 0 && !t.PropertyName? && !t.NullPropertyName?
    modifies jw
    ensures jw.tokens == old(jw.tokens) + [PropertyName(name), t]
    ensures jw.open == old(jw.open) && !jw.afterName
    ensures Appends(old(jw.tokens), jw.tokens, ignore)
  {
    AppendsToken(jw.tokens, PropertyName(name), ignore);
    var ok := jw.WritePropertyName(Some(name));
    assert ok;
    ghost var t1 := jw.tokens;
    AppendsToken(jw.tokens, t, ignore);
    ok := jw.WriteScalar(t);
    assert ok;
    AppendsTrans(old(jw.tokens), t1, jw.tokens, ignore);
  }

  // The closing bracket of the innermost open container.
  method CloseContainer(jw: JsonWriter, c: Container, ignore: set<string>)
    requires jw.open != [] && jw.open[|jw.open| - 1] == c && !jw.afterName
    modifies jw
    ensures jw.tokens == old(jw.tokens) + [if c == InObject then EndObject else EndArray]
    ensures jw.open == old(jw.open)[..|old(jw.open)| - 1] && !jw.afterName
    ensures Appends(old(jw.tokens), jw.tokens, ignore)
  {
    AppendsToken(jw.tokens, if c == InObject then EndObject else EndArray, ignore);
    var ok := jw.WriteEnd(c);
    assert ok;
  }

  // A bracketed run: what was appended between the name and the close.
  lemma Closed(t0: seq<Token>, t1: seq<Token>, t2: seq<Token>, t3: seq<Token>, name: Option<string>,
               open: Token, body: seq<Token>, close: Token, ignore: set<string>)
    requires Appends(t0, t1, ignore) && t1 == t0 + NameTokens(name) + [open]
    requires Appends(t1, t2, ignore) && t2 == t1 + body
    requires Appends(t2, t3, ignore) && t3 == t2 + [close]
    ensures Appends(t0, t3, ignore)
    ensures t3[|t0|..] == NameTokens(name) + [open] + body + [close]
  {
    AppendsTrans(t0, t1, t2, ignore);
    AppendsTrans(t0, t2, t3, ignore);
    BracketedSlices(t0, name, open, body, close);
  }
}
