/**
 * The function-entry renderer of pydoctor's HTML writer (`FunctionChild`).
 *
 * Each renderer reads the documented function object and decides what the
 * template shows: the CSS class of the entry, the decorator lines, the
 * `def` header, the optional source link and the optional deprecation
 * notice. The function object is a record; the results are plain values
 * standing for the template fragments the renderers return.
 */
module FunctionChild {
  import opened Wrappers
  import opened PyStrings

  /** Object identity, standing for Python's `is`. */
  type ObjId = nat

  /** A decorator expression of the function, as the AST builder kept it. */
  datatype DecoratorExpr = DecoratorExpr(
    isCall: bool,                  // the expression is an `ast.Call`
    resolvedName: Option<string>,  // full name of the called expression, when it resolves
    source: string)                // the expression printed back to source text

  /** The documented function (the renderer's `ob`). */
  datatype FunctionObject = FunctionObject(
    id: ObjId,
    parent: Option<ObjId>,
    cssClass: string,
    name: string,
    isAsync: bool,
    decorators: Option<seq<DecoratorExpr>>,  // None when the object has no decorator list
    sourceHref: Option<string>,
    deprecatedInfo: Option<string>,          // None when `_deprecated_info` is not set
    signature: string)                       // the rendered parameter list, opaque here

  /** The template fragments the renderers produce. */
  datatype Tag =
    | Br                                          // a line break
    | Div(content: string, role: string, cssClass: string)
    | Filled(slot: string, value: string)         // the renderer's own tag with one slot filled

  /** The decorator that is not shown, since the deprecation notice replaces it. */
  const DeprecatedDecorator: string := "twisted.python.deprecate.deprecated"

  const DeprecationNoticeClass: string := "deprecationNotice alert alert-warning"

  // ---------------------------------------------------------------------
  // CSS class of the entry
  // ---------------------------------------------------------------------

  /** The entry is marked as inherited ("base" prefix) exactly when the
      object's parent is not the object itself. */
  function CssClass(ob: FunctionObject): (r: string)
    ensures r == "base" + ob.cssClass <==> ob.parent != Some(ob.id)
    ensures r == ob.cssClass <==> ob.parent == Some(ob.id)
    ensures EndsWith(r, ob.cssClass)
  {
    var class_ := ob.cssClass;
    if ob.parent != Some(ob.id) then "base" + class_ else class_
  }

  // ---------------------------------------------------------------------
  // Decorator lines
  // ---------------------------------------------------------------------

  /** A call to the deprecation decorator, the one decorator that ends the
      list. Only a call can be one: a bare name or attribute never ends it,
      whatever it refers to. */
  function IsDeprecatedCall(d: DecoratorExpr): (b: bool)
    ensures b ==> d.isCall
    ensures !d.isCall ==> !b
  {
    d.isCall && d.resolvedName == Some(DeprecatedDecorator)
  }

  /** The decorator list, a missing one read as empty. */
  function DecoratorList(decorators: Option<seq<DecoratorExpr>>): (decs: seq<DecoratorExpr>)
    ensures decorators.Some? ==> decs == decorators.value
    ensures decs == [] <==> decorators.None? || decorators.value == []
  {
    match decorators
    case None => []
    case Some(ds) => ds
  }

  /** The position of the first deprecation call, or the length of the list
      when there is none. */
  function FirstDeprecatedCall(decs: seq<DecoratorExpr>): (k: nat)
    ensures k <= |decs|
    ensures forall j :: 0 <= j < k ==> !IsDeprecatedCall(decs[j])
    ensures k < |decs| ==> IsDeprecatedCall(decs[k])
  {
    if |decs| == 0 || IsDeprecatedCall(decs[0]) then 0
    else 1 + FirstDeprecatedCall(decs[1..])
  }

  /** The decorators shown, walking the list from the front and stopping at
      a deprecation call. */
  function ShownDecorators(decs: seq<DecoratorExpr>): (r: seq<DecoratorExpr>)
    ensures |r| <= |decs| && r == decs[..|r|]
  {
    if |decs| == 0 || IsDeprecatedCall(decs[0]) then []
    else [decs[0]] + ShownDecorators(decs[1..])
  }

  /** The line shown for one decorator: `@` and its stripped source text,
      then a line break. */
  function DecoratorLine(d: DecoratorExpr): (line: (string, Tag))
    ensures line.1 == Br
    ensures |line.0| >= 1 && line.0[0] == '@' && line.0[1..] == Strip(d.source)
    ensures |line.0| == 1 || (!IsSpace(line.0[1]) && !IsSpace(line.0[|line.0| - 1]))
  {
    StripSlice(d.source);
    ("@" + Strip(d.source), Br)
  }

  /** One line per shown decorator, in order. */
  function DecoratorLines(shown: seq<DecoratorExpr>): seq<(string, Tag)>
  {
    seq(|shown|, k requires 0 <= k < |shown| => DecoratorLine(shown[k]))
  }

  /** The `decorator` renderer. The lines are those of the longest prefix of
      the decorator list holding no deprecation call, in order; the result
      is empty exactly when the list is missing, empty, or starts with the
      deprecation call. */
  method Decorator(ob: FunctionObject) returns (lines: seq<(string, Tag)>)
    ensures lines == DecoratorLines(ShownDecorators(DecoratorList(ob.decorators)))
    ensures |lines| == FirstDeprecatedCall(DecoratorList(ob.decorators))
    ensures forall k :: 0 <= k < |lines| ==>
      lines[k] == ("@" + Strip(DecoratorList(ob.decorators)[k].source), Br)
    ensures lines == [] <==>
      ob.decorators.None? || ob.decorators.value == [] || IsDeprecatedCall(ob.decorators.value[0])
  {
    var decorators: seq<string> := [];
    if ob.decorators.Some? && ob.decorators.value != [] {
      var decs := ob.decorators.value;
      var i := 0;
      while i < |decs|
        invariant i <= FirstDeprecatedCall(decs)
        invariant |decorators| == i
        invariant forall j :: 0 <= j < i ==> decorators[j] == Strip(decs[j].source)
      {
        var dec := decs[i];
        if dec.isCall {
          var fn := dec.resolvedName;
          if fn == Some(DeprecatedDecorator) {
            break;
          }
        }
        decorators := decorators + [Strip(dec.source)];
        i := i + 1;
      }
      assert i == FirstDeprecatedCall(decs);
    }
    if |decorators| > 0 {
      lines := seq(|decorators|, k requires 0 <= k < |decorators| => ("@" + decorators[k], Br));
    } else {
      lines := [];
    }
    LinesOfShown(decorators, DecoratorList(ob.decorators), lines);
  }

  /** The texts collected by the `decorator` loop, each prefixed with `@`
      and paired with a line break, are the lines of the shown decorators. */
  lemma LinesOfShown(texts: seq<string>, decs: seq<DecoratorExpr>, lines: seq<(string, Tag)>)
    requires |texts| == FirstDeprecatedCall(decs)
    requires forall j :: 0 <= j < |texts| ==> texts[j] == Strip(decs[j].source)
    requires |lines| == |texts|
    requires forall k :: 0 <= k < |texts| ==> lines[k] == ("@" + texts[k], Br)
    ensures lines == DecoratorLines(ShownDecorators(decs))
  {
    ShownUpToFirstDeprecated(decs);
    var shown := ShownDecorators(decs);
    forall k | 0 <= k < |lines|
      ensures lines[k] == DecoratorLine(shown[k])
    {
      assert shown[k] == decs[k];
    }
  }

  /** The walk that stops at a deprecation call keeps exactly the decorators
      before the first one. */
  lemma {:induction false} ShownUpToFirstDeprecated(decs: seq<DecoratorExpr>)
    ensures ShownDecorators(decs) == decs[..FirstDeprecatedCall(decs)]
  {
    if |decs| > 0 && !IsDeprecatedCall(decs[0]) {
      ShownUpToFirstDeprecated(decs[1..]);
      assert decs[..FirstDeprecatedCall(decs)] == [decs[0]] + decs[1..][..FirstDeprecatedCall(decs[1..])];
    }
  }

  /** A deprecation call at position `k` with none before it: exactly the
      decorators before `k` are shown, and that one and all after it are not. */
  lemma StopsAtFirstDeprecated(decs: seq<DecoratorExpr>, k: nat)
    requires k < |decs| && IsDeprecatedCall(decs[k])
    requires forall j :: 0 <= j < k ==> !IsDeprecatedCall(decs[j])
    ensures ShownDecorators(decs) == decs[..k]
  {
    ShownUpToFirstDeprecated(decs);
  }

  /** What follows a deprecation call never matters, whether or not it is
      itself a deprecation call; without one, the rest is walked in turn. */
  lemma {:induction false} ShownOfConcat(a: seq<DecoratorExpr>, b: seq<DecoratorExpr>)
    ensures FirstDeprecatedCall(a) < |a| ==> ShownDecorators(a + b) == ShownDecorators(a)
    ensures FirstDeprecatedCall(a) == |a| ==> ShownDecorators(a + b) == a + ShownDecorators(b)
  {
    if |a| == 0 {
      assert a + b == b;
    } else if !IsDeprecatedCall(a[0]) {
      var tail := a[1..];
      assert (a + b)[0] == a[0] && (a + b)[1..] == tail + b;
      ShownOfConcat(tail, b);
      assert ShownDecorators(a + b) == [a[0]] + ShownDecorators(tail + b);
      if FirstDeprecatedCall(a) == |a| {
        assert a == [a[0]] + tail;
      }
    } else {
      assert (a + b)[0] == a[0];
    }
  }

  /** With no deprecation call in the list every decorator is shown, in order. */
  lemma {:induction false} NoDeprecatedShowsAll(decs: seq<DecoratorExpr>)
    requires forall j :: 0 <= j < |decs| ==> !IsDeprecatedCall(decs[j])
    ensures ShownDecorators(decs) == decs
  {
    if |decs| > 0 {
      NoDeprecatedShowsAll(decs[1..]);
      assert decs == [decs[0]] + decs[1..];
    }
  }

  /** Only a call can end the list: decorators that are not calls are all
      shown, whatever name they refer to. */
  lemma {:induction false} NonCallsAllShown(decs: seq<DecoratorExpr>)
    requires forall j :: 0 <= j < |decs| ==> !decs[j].isCall
    ensures ShownDecorators(decs) == decs
  {
    NoDeprecatedShowsAll(decs);
  }

  /** Two decorator lists that agree, position by position, on which entries
      are deprecation calls and on their source text give the same lines. */
  lemma {:induction false} SameStopsSameLines(x: seq<DecoratorExpr>, y: seq<DecoratorExpr>)
    requires |x| == |y|
    requires forall j :: 0 <= j < |x| ==> IsDeprecatedCall(x[j]) == IsDeprecatedCall(y[j])
    requires forall j :: 0 <= j < |x| ==> x[j].source == y[j].source
    ensures DecoratorLines(ShownDecorators(x)) == DecoratorLines(ShownDecorators(y))
  {
    if |x| > 0 && !IsDeprecatedCall(x[0]) {
      SameStopsSameLines(x[1..], y[1..]);
      var lx, ly := DecoratorLines(ShownDecorators(x)), DecoratorLines(ShownDecorators(y));
      assert |lx| == |ly|;
      forall k | 0 <= k < |lx| ensures lx[k] == ly[k] {
        if k > 0 {
          assert lx[k] == DecoratorLines(ShownDecorators(x[1..]))[k - 1];
          assert ly[k] == DecoratorLines(ShownDecorators(y[1..]))[k - 1];
        }
      }
    }
  }

  /** The name a non-call decorator resolves to has no effect on the lines. */
  lemma NonCallNameIrrelevant(decs: seq<DecoratorExpr>, i: nat, n: Option<string>)
    requires i < |decs| && !decs[i].isCall
    ensures DecoratorLines(ShownDecorators(decs))
         == DecoratorLines(ShownDecorators(decs[i := decs[i].(resolvedName := n)]))
  {
    SameStopsSameLines(decs, decs[i := decs[i].(resolvedName := n)]);
  }

  // ---------------------------------------------------------------------
  // The `def` header
  // ---------------------------------------------------------------------

  /** A name ending in a one-dot suffix has its last `.` where the suffix starts. */
  lemma LastDotStartsSuffix(name: string, suffix: string)
    requires EndsWith(name, suffix) && |suffix| > 0 && suffix[0] == '.'
    requires '.' !in suffix[1..]
    ensures RIndex(name, '.') == Some(|name| - |suffix|)
  {
    var p := |name| - |suffix|;
    assert name[p] == suffix[0] == '.';
    forall k | p < k < |name|
      ensures name[k] != '.'
    {
      assert name[k] == suffix[1..][k - p - 1];
    }
    RIndexOfLast(name, '.', p);
  }

  /** A property accessor's name loses its `.setter` / `.deleter` suffix,
      that is, it is cut just before its last `.`; any other name is kept. */
  function TrimAccessorName(name: string): (r: string)
    ensures EndsWith(name, ".setter") ==> r + ".setter" == name
    ensures EndsWith(name, ".deleter") ==> r + ".deleter" == name
    ensures !EndsWith(name, ".setter") && !EndsWith(name, ".deleter") ==> r == name
  {
    if EndsWith(name, ".setter") || EndsWith(name, ".deleter") then
      var suffix := if EndsWith(name, ".setter") then ".setter" else ".deleter";
      LastDotStartsSuffix(name, suffix);
      assert name == name[..|name| - |suffix|] + suffix;
      match RIndex(name, '.')
      case Some(i) => name[..i]
      case None => name  // cannot happen: the suffix holds a '.'
    else
      name
  }

  /** Worked cases of the accessor-name rule. */
  lemma TrimAccessorNameExamples()
    ensures TrimAccessorName("a.b.setter") == "a.b"
    ensures TrimAccessorName("x.deleter") == "x"
    ensures TrimAccessorName("setter") == "setter"
    ensures TrimAccessorName("a.b") == "a.b"
  {
    assert "a.b" + ".setter" == "a.b.setter";
    assert "x" + ".deleter" == "x.deleter";
    assert !EndsWith("a.b", ".setter") && !EndsWith("a.b", ".deleter");
  }

  /** The `functionDef` renderer: keyword, space, name, signature, colon.
      The keyword is `async def` exactly for coroutine functions. */
  function FunctionDef(ob: FunctionObject): (r: seq<string>)
    ensures |r| == 5 && r[1] == " " && r[3] == ob.signature && r[4] == ":"
    ensures r[0] == "async def" <==> ob.isAsync
    ensures r[0] == "def" <==> !ob.isAsync
    ensures EndsWith(ob.name, ".setter") ==> r[2] + ".setter" == ob.name
    ensures EndsWith(ob.name, ".deleter") ==> r[2] + ".deleter" == ob.name
    ensures !EndsWith(ob.name, ".setter") && !EndsWith(ob.name, ".deleter") ==> r[2] == ob.name
  {
    var defStmt := if ob.isAsync then "async def" else "def";
    [defStmt, " ", TrimAccessorName(ob.name), ob.signature, ":"]
  }

  // ---------------------------------------------------------------------
  // Optional sections
  // ---------------------------------------------------------------------

  /** The `sourceLink` renderer: the tag with its `sourceHref` slot filled
      when the object has a non-empty source URL, nothing otherwise. */
  function SourceLink(ob: FunctionObject): (r: seq<Tag>)
    ensures |r| <= 1
    ensures r == [] <==> ob.sourceHref.None? || ob.sourceHref.value == ""
    ensures r != [] ==> r[0] == Filled("sourceHref", ob.sourceHref.value) && ob.sourceHref.value != ""
  {
    if ob.sourceHref.Some? && ob.sourceHref.value != "" then
      [Filled("sourceHref", ob.sourceHref.value)]
    else
      []
  }

  /** The `functionDeprecated` renderer: one alert holding the deprecation
      text when the object carries one, nothing otherwise. */
  function FunctionDeprecated(ob: FunctionObject): (r: seq<Tag>)
    ensures |r| <= 1
    ensures r == [] <==> ob.deprecatedInfo.None?
    ensures r != [] ==> r[0] == Div(ob.deprecatedInfo.value, "alert", DeprecationNoticeClass)
  {
    match ob.deprecatedInfo
    case Some(info) => [Div(info, "alert", DeprecationNoticeClass)]
    case None => []
  }
}
