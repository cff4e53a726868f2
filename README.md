# pydoctor function-entry renderer, modelled in Dafny

pydoctor is a documentation generator for Python: it builds a model of a
package's modules, classes and functions, then renders that model to HTML.
This project models `FunctionChild`, the element that renders one function
or method entry on a page. Before the template engine takes over, it makes a
few small decisions:

- which CSS class the entry gets (`base…` for an entry whose parent is not the object itself);
- which decorators are listed. It walks the decorator list in order and stops (`break`)
  at the first call to `twisted.python.deprecate.deprecated`. That decorator is hidden
  because the deprecation notice stands in for it. The `break` also drops every
  decorator after it, including ones that have nothing to do with deprecation; the
  source gives no reason for that part. Each listed decorator is shown as `@` plus its
  source text, stripped, followed by a line break;
- the `def` header: `async def` or `def`, then the name, with a property accessor's
  `.setter` / `.deleter` suffix cut off, then the signature and a colon;
- whether a source link is shown (only when a non-empty source URL is set) and whether
  a deprecation alert is shown (only when deprecation text is set).

The documented function is the record `FunctionChild.FunctionObject`, and each
decorator is a `DecoratorExpr` record. The record carries three things as
opaque inputs: whether the decorator is a call, the full name its callee
resolves to, and its printed source. The results stand for the template
fragments the source builds. `Br` is a line break, `Div` is the alert block,
and `Filled` is the renderer's tag with a slot filled. Every renderer that may
return the empty tuple `()` returns a sequence of fragments here, and the empty
sequence stands for `()`.

Files:

- `wrappers.dfy`: `Option`.
- `pystrings.dfy`: the Python string operations the renderer uses: `strip()`,
  `endswith()`, `rindex()`.
- `functionchild.dfy`: the function-object record and the five renderers.

`decorator` builds a list inside a loop with an early `break`, so it is a method
with a `while` loop. Its contract ties the result to the reference definition
`ShownDecorators`, and the lemmas state what `ShownDecorators` shows. The other
renderers are pure functions.

A source URL that is set but empty renders nothing, the same as a missing one.
This is because the code tests the URL's truthiness, not whether it is present.
The deprecation alert depends only on whether `_deprecated_info` exists
(`hasattr`), so an empty deprecation text still renders an alert.

The CSS class test `ob.parent is not ob` covers both branches, but in pydoctor a
function is never its own parent. So for real objects the test is always true and
every entry gets the `base` prefix. The unprefixed branch is modelled because the code
has it, not because any real object reaches it.

## Model

| member | source | states |
|---|---|---|
| `FunctionChild.CssClass` | pydoctor/templatewriter/pages/functionchild.py:19-24 | the class is `"base"` + the object's CSS class exactly when the object's parent is not the object itself, and the plain CSS class exactly when it is; either way it ends with the object's CSS class |
| `FunctionChild.DecoratorList` | pydoctor/templatewriter/pages/functionchild.py:39-40 | a present decorator list is walked unchanged; the list walked is empty exactly when the object's decorator list is missing or empty |
| `FunctionChild.IsDeprecatedCall` | pydoctor/templatewriter/pages/functionchild.py:41-46 | a decorator stops the walk only if it is a call whose callee resolves to `twisted.python.deprecate.deprecated`; a non-call never does, whatever it refers to |
| `FunctionChild.FirstDeprecatedCall` | pydoctor/templatewriter/pages/functionchild.py:40-46 | the index where the loop breaks is within the list; no decorator before it is a call resolving to `twisted.python.deprecate.deprecated`; the one at it (if any) is such a call |
| `FunctionChild.ShownDecorators` | pydoctor/templatewriter/pages/functionchild.py:37-48 | the decorators kept by the walk form a prefix of the decorator list |
| `FunctionChild.DecoratorLine` | pydoctor/templatewriter/pages/functionchild.py:48-51 | one decorator's line is `@` followed by its stripped source text and paired with a line break; that text has no whitespace at either end |
| `FunctionChild.Decorator` | pydoctor/templatewriter/pages/functionchild.py:34-55 | the rendered lines are those of `ShownDecorators`; their number is the index of the first deprecation call; line k is `"@"` + the stripped source of decorator k with a line break; the result is empty exactly when the list is missing, empty, or starts with the deprecation call |
| `FunctionChild.LinesOfShown` | pydoctor/templatewriter/pages/functionchild.py:48-53 | the texts collected by the loop, each with `@` in front and a line break after it, are the lines of the shown decorators, in order |
| `FunctionChild.ShownUpToFirstDeprecated` | pydoctor/templatewriter/pages/functionchild.py:40-48 | the shown decorators are exactly the list up to (not including) the first deprecation call |
| `FunctionChild.StopsAtFirstDeprecated` | pydoctor/templatewriter/pages/functionchild.py:40-46 | a deprecation call at position k with none before it: exactly the decorators before k are shown, and it and all later ones are not |
| `FunctionChild.ShownOfConcat` | pydoctor/templatewriter/pages/functionchild.py:40-48 | decorators after a deprecation call never change the result, even ones that are not deprecation calls; with no deprecation call in the first part, the walk carries on into the rest |
| `FunctionChild.NoDeprecatedShowsAll` | pydoctor/templatewriter/pages/functionchild.py:39-48 | with no deprecation call in the list, every decorator is shown, in the original order |
| `FunctionChild.NonCallsAllShown` | pydoctor/templatewriter/pages/functionchild.py:41-48 | only a call can stop the walk: a list of non-call decorators is shown in full, whatever names they resolve to |
| `FunctionChild.SameStopsSameLines` | pydoctor/templatewriter/pages/functionchild.py:40-51 | the lines depend only on which decorators are deprecation calls and on their source text |
| `FunctionChild.NonCallNameIrrelevant` | pydoctor/templatewriter/pages/functionchild.py:41-48 | changing the resolved name of a non-call decorator never changes the rendered lines |
| `FunctionChild.LastDotStartsSuffix` | pydoctor/templatewriter/pages/functionchild.py:61-62 | in a name ending with `.setter` or `.deleter`, the last `.` is the one that starts the suffix |
| `FunctionChild.TrimAccessorName` | pydoctor/templatewriter/pages/functionchild.py:60-62 | a name ending in `.setter` / `.deleter` becomes the name with exactly that suffix removed, i.e. cut before its last `.`; any other name is unchanged |
| `FunctionChild.TrimAccessorNameExamples` | pydoctor/templatewriter/pages/functionchild.py:60-62 | `a.b.setter` becomes `a.b`, `x.deleter` becomes `x`, and `setter` and `a.b` are unchanged |
| `FunctionChild.FunctionDef` | pydoctor/templatewriter/pages/functionchild.py:57-63 | the header has five parts: keyword, `" "`, the name, the signature, `":"`. The keyword is `async def` exactly for an async function and `def` otherwise. The name loses exactly its `.setter` / `.deleter` suffix and is otherwise the object's name |
| `FunctionChild.SourceLink` | pydoctor/templatewriter/pages/functionchild.py:65-70 | at most one fragment; nothing is rendered exactly when the source URL is missing or empty; otherwise the tag's `sourceHref` slot is filled with that URL |
| `FunctionChild.FunctionDeprecated` | pydoctor/templatewriter/pages/functionchild.py:80-85 | at most one fragment; it is absent exactly when the object has no deprecation info; when present it is an `alert` div with class `deprecationNotice alert alert-warning` holding that info |
| `PyStrings.EndsWith` | pydoctor/templatewriter/pages/functionchild.py:61 | `s.endswith(suffix)` holds exactly when `s` is some prefix followed by `suffix` |
| `PyStrings.Strip` | pydoctor/templatewriter/pages/functionchild.py:48 | `strip()` never lengthens the text, and the result neither starts nor ends with whitespace |
| `PyStrings.TrimStartSuffix` | pydoctor/templatewriter/pages/functionchild.py:48 | removing leading whitespace keeps a suffix; all removed characters are whitespace and the rest does not start with whitespace |
| `PyStrings.TrimEndPrefix` | pydoctor/templatewriter/pages/functionchild.py:48 | removing trailing whitespace keeps a prefix; all removed characters are whitespace and the rest does not end with whitespace |
| `PyStrings.StripSlice` | pydoctor/templatewriter/pages/functionchild.py:48 | `strip()` keeps a contiguous slice; everything cut off on either side is whitespace and the slice neither starts nor ends with whitespace |
| `PyStrings.StripOfTrimmed` | pydoctor/templatewriter/pages/functionchild.py:48 | text with no whitespace at either end is unchanged by `strip()` |
| `PyStrings.StripIdempotent` | pydoctor/templatewriter/pages/functionchild.py:48 | stripping twice is the same as stripping once |
| `PyStrings.RIndexOfLast` | pydoctor/templatewriter/pages/functionchild.py:62 | a character at position n that does not occur after n is what `rindex` returns |
| `PyStrings.RIndex` | pydoctor/templatewriter/pages/functionchild.py:62 | `rindex` finds nothing exactly when the character is absent; otherwise it returns the index of that character, and no later position holds it |

## Left out

- `functionAnchor`, `shortFunctionAnchor`, `functionExtras` and `functionBody`
  (functionchild.py:26-32, 72-78) pass on `ob.fullName()`, `ob.name`, the extras given
  to the constructor and `docgetter.get(ob)` unchanged. They make no decision, and
  `fullName` and the doc getter are not part of this model.
- The template machinery (`Element`, the `XMLFile` loader, `@renderer`, `tags.br`,
  `tags.div`, `fillSlots`) is reduced to the plain values `Br`, `Div` and `Filled`.
  Whether a renderer returns a list or a tuple is not modelled.
- `astor.to_source`, `node2fullname` and `signature` are not part of this model. Their
  results are opaque fields of the records: `DecoratorExpr.source`,
  `DecoratorExpr.resolvedName` and `FunctionObject.signature`.
- `_deprecated_info` and the source URL are modelled as text. In the source they are
  arbitrary values placed into the page.
- `RIndex`: Python's `ValueError` for a missing character is the `None` result. After
  the `.setter` / `.deleter` test this case cannot happen, so `TrimAccessorName` never
  reaches it.
- Object identity (`is not`) is modelled by comparing `ObjId` numbers.
