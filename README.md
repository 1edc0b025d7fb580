# graphql-twig, modelled in Dafny

graphql-twig lets a Drupal Twig template carry a GraphQL query. It has two
stages.

At compile time:
- a `{#graphql ... #}` comment annotation, or a sidecar `<template>.gql` file, becomes a `{% graphql %}...{% endgraphql %}` tag (`GraphQLTwigEnvironment`);
- the tag parser reads the tag's body (`GraphQLTokenParser`);
- the metadata node trims the query, parses it for operations and their variables, and compiles the result into static methods on the generated template class (`GraphQLNode`).

At run time, `GraphQLTemplateTrait` composes the template's query:
- its effective fragment: the template's own query, else its parent's;
- then the fragments of every template it includes, directly or transitively.

Around that:
- the component loader resolves `#name` to a component of the active theme (`Loader`);
- themes declare routes (`GraphQLTwigRouter`) and blocks (`GraphQLTwigBlockDeriver`) in their info files;
- the block plugin builds, edits and submits block arguments (`GraphQLTwigBlock`).

Each source file has its own module, except `src/GraphQLTemplateTrait.php`, which has three: the resolution as written (`TemplateGraph`), the bounded and the corrected resolution (`TemplateGraphSafe`), and its unit tests (`TemplateGraphExamples`). `Wrappers` and `Php` are support modules.

| module | file | models |
|---|---|---|
| `Wrappers` | wrappers.dfy | `Option` and `Result` |
| `Php` | php.dfy | the PHP semantics the code relies on: string truthiness, `trim`, `implode`/`explode`, `array_flip`, the array union `+` (on key lists, on lists and on associative arrays), ordered associative arrays written key by key, and configuration values with `isset` and falsiness |
| `Annotation` | annotation.dfy | the annotation regular expression (a direct scanner proved equal to the regex engine's backtracking order), `replaceAnnotation`, `compileSource` |
| `TokenParser` | token_parser.dfy | the token stream (a class), Twig's `subparse` loop for the tag's body, `parse` |
| `MetadataNode` | metadata_node.dfy | the node's constructor, `compile` over a compiler class, and reading the compiled class back |
| `TemplateGraph` | template_graph.dfy | `getGraphQLFragment`, `getGraphQLIncludes` (a function and a loop method), and `getGraphQLQuery`, all as written |
| `TemplateGraphSafe` | template_graph_safe.dfy | the as-written include recursion with a depth bound, and the corrected, cycle-tolerant resolution |
| `TemplateGraphExamples` | template_graph_examples.dfy | the unit tests of `tests/src/Unit/GraphQLTwigExtensionTest.php`, as lemmas about both resolutions |
| `ComponentLoader` | component_loader.dfy | the loader class with its component map and cache |
| `Router` | router.dfy | `routes()` |
| `BlockDeriver` | block_deriver.dfy | the deriver class and its `derivatives` field |
| `BlockPlugin` | block_plugin.dfy | the block class: `build`, `blockSubmit`, `blockForm` |

These are parameters of the model or are read from the state it is given:
- the file system (sidecar files and component directory scans);
- the cache backend;
- the theme handler's `listInfo()`;
- `t()`, which becomes the `Translated` value constructor;
- the GraphQL parser.

How the model treats the places where the code fails, or differs from what its unit tests expect:
- `loadTemplate` throws on an unknown template id. The as-written `Query` returns `Err(TemplateNotFound(id))` where it loads an unknown parent, or an include fragment text that is not a template id. The bounded include recursion `IncludesFuel` returns `Thrown(id)` for an unknown include.
- Each as-written recursion needs its own measure, over only the templates it visits: `getGraphQLFragment` follows a parent link only when the own query is falsy, and `getGraphQLIncludes` follows include links only. A template that includes a template that extends it, or two templates with truthy queries that extend each other, are therefore inside the model.
- The code keeps empty fragments in the composed query (`implode` filters nothing). It removes repeated include ids, not repeated texts.
- The code has no visited set and does not add a parent's includes, so the unit tests `testExtendInclude` and `testRecursiveInclude` do not hold for it. Both are logged under Findings.
- The corrected `SafeQuery` is the model's own definition, chosen so that those two tests hold. It adds the parent's include ids and expands each include id once. It also skips an unknown id instead of throwing; no test covers that case.
- The metadata node parses the query only when it is truthy in PHP, so the query `"0"` is not parsed, just like an empty one.

## Model

| member | source | states |
|---|---|---|
| Php.Truthy | src/GraphQLTemplateTrait.php:63 | `""` and `"0"` are falsy, and every string of two or more characters is truthy, `"00"` included |
| Php.KeyUnion | src/GraphQLTemplateTrait.php:82 | `$a += $b` on keys: every key of `a` stays in front in its place, the result holds exactly the keys of either side, and no key repeats if `a` had none repeated |
| Php.KeyUnionDisjoint | src/GraphQLTemplateTrait.php:82 | when no key repeats, the union is concatenation |
| Php.KeyUnionSubsumed | src/GraphQLTemplateTrait.php:82 | a right operand whose keys are all in the left one adds nothing |
| Php.FlipKeys | src/GraphQLTemplateTrait.php:79 | the keys of `array_flip` hold no repeats and exactly the listed values, and are no more than the list |
| Php.FlipKeysOfUnique | src/GraphQLTemplateTrait.php:79 | a list without repeats flips to its own order |
| Php.ListUnion | src/GraphQLTemplateTrait.php:33 | `+` on two 0-indexed lists keeps the left list and only extends it past its length |
| Php.Implode | src/GraphQLTemplateTrait.php:40 | `implode` of no parts is `""`, and the first part is always a prefix of the result |
| Php.ImplodeLength | src/GraphQLTemplateTrait.php:40 | `implode` drops nothing: its length is the total length of the parts plus one separator per gap |
| Php.ExplodeImplode | src/GraphQLTemplateTrait.php:40 | a newline-joined list of newline-free parts splits back into exactly those parts, empty ones included |
| Php.SkipForward | src/GraphQLNode.php:66 | the first index from `i` that is not a trim character, with only trim characters before it |
| Php.SkipBackward | src/GraphQLNode.php:66 | the lowest index from which only trim characters remain up to `j` |
| Php.Trim | src/GraphQLNode.php:66 | `trim` removes exactly the leading and trailing run of space, tab, LF, CR, NUL and vertical tab |
| Php.TrimIdempotent | src/GraphQLNode.php:66 | trimming twice is trimming once |
| Php.TrimOfTrimmed | src/GraphQLNode.php:66 | a string without a trim character at either end is unchanged |
| Php.EmptyAssoc | src/Plugin/Block/GraphQLTwigBlock.php:70 | `[]` is a valid array with no keys |
| Php.Put | src/Plugin/Block/GraphQLTwigBlock.php:73 | `$a[$k] = $v`: the value is set, an existing key keeps its place and a new key is appended |
| Php.AssocUnion | src/Plugin/Deriver/GraphQLTwigBlockDeriver.php:35 | `$a + $b`: key order is the key union, every left entry wins, and a right entry appears only where the left lacks the key |
| Php.KeysOf | src/Plugin/Block/GraphQLTwigBlock.php:57 | the keys of a list of pairs, position by position |
| Php.PutAll | src/Plugin/Block/GraphQLTwigBlock.php:72-74 | a `foreach` of assignments leaves a valid array |
| Php.KeyUnionSnoc | src/Plugin/Block/GraphQLTwigBlock.php:73 | adding one key to the right operand appends it unless it is already present |
| Php.PutAllKeys | src/Plugin/Block/GraphQLTwigBlock.php:72-74 | after a loop of assignments the key order is the union of the old keys and the assigned keys |
| Php.PutAllAbsent | src/Plugin/Block/GraphQLTwigBlock.php:72-74 | a key no assignment names keeps its old entry, or stays absent |
| Php.PutAllLast | src/Plugin/Block/GraphQLTwigBlock.php:72-74 | a key ends with the value of the last assignment that names it |
| Php.PutAllAppend | src/Routing/GraphQLTwigRouter.php:36-38 | two loops of assignments in a row are one loop over both lists |
| Php.PutAllFrom | src/Routing/GraphQLTwigRouter.php:39 | every value a key ends up with was there before or came from one of the assignments |
| Php.Falsy | src/Plugin/Deriver/GraphQLTwigBlockDeriver.php:34 | the falsy values are exactly null, false, 0, `""`, `"0"` and the empty array |
| Php.Get | src/Routing/GraphQLTwigRouter.php:39 | a non-null read is an entry of the array under that key; a key the array lacks, or a value that is not an array, reads as null |
| Annotation.RunEnd | src/GraphQLTwigEnvironment.php:87 | a greedy `\s*` from `i`: every character up to the result is whitespace, and the next one is not |
| Annotation.RunEndInside | src/GraphQLTwigEnvironment.php:87 | from any point inside a whitespace run, the run ends in the same place |
| Annotation.FindClose | src/GraphQLTwigEnvironment.php:87 | a result is a position from `x` at which `\s+#}` can start |
| Annotation.FindCloseSkips | src/GraphQLTwigEnvironment.php:87 | positions where `\s+#}` cannot start do not change the search |
| Annotation.FindCloseFirst | src/GraphQLTwigEnvironment.php:87 | the search finds a position no later than any position where `\s+#}` starts |
| Annotation.MatchPrefix | src/GraphQLTwigEnvironment.php:87 | a match covers more than the keyword and stays within the text |
| Annotation.TryTail | src/GraphQLTwigEnvironment.php:87 | the second `\s+`, giving back characters: it fails exactly when no `#}` starts within the characters it may take, and otherwise ends just after a `#}` that starts within them |
| Annotation.TryLazy | src/GraphQLTwigEnvironment.php:87 | the lazy query takes at least the characters it started with and ends before the match does, within the text |
| Annotation.TryHead | src/GraphQLTwigEnvironment.php:87 | the first `\s+`, giving back characters: a match covers more than the keyword and stays within the text |
| Annotation.PcreMatchPrefix | src/GraphQLTwigEnvironment.php:87 | the pattern anchored at the start, in the engine's backtracking order: a match starts with the keyword, covers more than it and stays within the text |
| Annotation.TryTailShort | src/GraphQLTwigEnvironment.php:87 | a second `\s+` that stops inside a run never reaches `#}` |
| Annotation.TryTailFull | src/GraphQLTwigEnvironment.php:87 | the backtracking second `\s+` succeeds exactly where `\s+#}` starts, ending after the run and `#}` |
| Annotation.TryLazyHere | src/GraphQLTwigEnvironment.php:87 | the lazy query stops where `\s+#}` starts |
| Annotation.TryLazyOn | src/GraphQLTwigEnvironment.php:87 | elsewhere the lazy query takes one more character |
| Annotation.TryLazyNone | src/GraphQLTwigEnvironment.php:87 | with no `\s+#}` ahead the lazy query never stops |
| Annotation.TryLazySome | src/GraphQLTwigEnvironment.php:87 | the lazy query ends at the first `\s+#}` ahead |
| Annotation.TryLazyFindsClose | src/GraphQLTwigEnvironment.php:87 | the lazy query's result is fixed by the first `\s+#}` ahead, or fails when there is none |
| Annotation.TryHeadShorter | src/GraphQLTwigEnvironment.php:87 | handing characters back from the first `\s+` never helps when no `#}` follows the run |
| Annotation.MatchPrefixIsPcre | src/GraphQLTwigEnvironment.php:87 | the scanner gives exactly the regex engine's leftmost match, in its backtracking order |
| Annotation.PcreFullRun | src/GraphQLTwigEnvironment.php:87 | with a close after the whole run, the first `\s+` keeps every whitespace character |
| Annotation.PcreShortRun | src/GraphQLTwigEnvironment.php:87 | a one-character run with no close after it does not match |
| Annotation.PcreGiveBack | src/GraphQLTwigEnvironment.php:87 | a run followed directly by `#}` matches with an empty query: the first `\s+` gives one character back |
| Annotation.MatchPrefixSound | src/GraphQLTwigEnvironment.php:87 | every match is the keyword, non-empty whitespace, the query, non-empty whitespace and `#}`, and spans exactly that |
| Annotation.ShapeFromIndices | src/GraphQLTwigEnvironment.php:87 | positions with whitespace on both sides of the query give the annotation shape and its length |
| Annotation.MatchPrefixComplete | src/GraphQLTwigEnvironment.php:87 | text that starts with the annotation shape always matches |
| Annotation.RunEndAcross | src/GraphQLTwigEnvironment.php:87 | a whitespace run ends at the first character that is not whitespace |
| Annotation.AtTail | src/GraphQLTwigEnvironment.php:132 | the keyword occurs in the tail of the text exactly where it occurs one place later in the text |
| Annotation.ReplaceAnnotation | src/GraphQLTwigEnvironment.php:131-133 | text in which the keyword occurs nowhere is left unchanged |
| Annotation.ReplaceCopies | src/GraphQLTwigEnvironment.php:131-133 | text that does not start with the keyword keeps its first character, and the rest is rewritten in turn |
| Annotation.NoKeywordAnywhere | src/GraphQLTwigEnvironment.php:131-133 | checking the keyword position by position from the front is the same as checking that it occurs at no index |
| Annotation.CopiedUpToKeyword | src/GraphQLTwigEnvironment.php:131-133 | text before the first keyword is copied verbatim |
| Annotation.CanonicalAnnotation | src/GraphQLTwigEnvironment.php:131-133 | a well-spaced annotation becomes `{% graphql %}query{% endgraphql %}`, and the rest of the text is rewritten in turn |
| Annotation.AnnotationLayout | src/GraphQLTwigEnvironment.php:87 | where each character of a well-spaced annotation sits |
| Annotation.RunStopsBefore | src/GraphQLTwigEnvironment.php:87 | a whitespace run stops before a character that is not whitespace |
| Annotation.AnnotationMatch | src/GraphQLTwigEnvironment.php:87 | a well-spaced annotation matches with exactly its query, over exactly its length |
| Annotation.CompileSource | src/GraphQLTwigEnvironment.php:92-120 | a file source stays a file source with its name and path; inline code stays inline |
| Annotation.SidecarWins | src/GraphQLTwigEnvironment.php:95-101 | with a sidecar file, its contents in tags come first, followed by the code unchanged |
| Annotation.AnnotationWithoutSidecar | src/GraphQLTwigEnvironment.php:103-110 | without a sidecar file, the code gets the annotation rewrite only |
| Annotation.InlineIgnoresFiles | src/GraphQLTwigEnvironment.php:113-116 | inline code gets the annotation rewrite and never depends on the file system |
| TokenParser.SkipTo | src/GraphQLTokenParser.php:30 | the first token of a kind, or end of file, at or after `i` |
| TokenParser.SubparseStep | src/GraphQLTokenParser.php:30 | one turn of the body loop moves forward and adds one node, a text node exactly from a text token. It stops only at end of file or right after a block start and `endgraphql`, keeping the nodes |
| TokenParser.SubparseFrom | src/GraphQLTokenParser.php:30 | the body loop ends at a token of the stream |
| TokenParser.FragmentOf | src/GraphQLTokenParser.php:32-34 | a fragment exists exactly when the body is one text node, and it is that node's text |
| TokenParser.ParseTag | src/GraphQLTokenParser.php:19-45 | `parse` succeeds only in the main scope with a block end after the tag name, and then resumes right after a later block end |
| TokenParser.TokenStream.constructor | src/GraphQLTokenParser.php:20 | the stream starts at the first token |
| TokenParser.TokenStream.Next | src/GraphQLTokenParser.php:29 | moving on advances the cursor by one and keeps the tokens |
| TokenParser.TokenStream.Expect | src/GraphQLTokenParser.php:29 | a token of the expected kind is consumed and returned; any other token is an "unexpected token" error at its line, and nothing is consumed |
| TokenParser.TokenStream.SkipUntil | src/GraphQLTokenParser.php:30 | the cursor moves to the first token of the kind, or to end of file |
| TokenParser.Step | src/GraphQLTokenParser.php:30 | one turn of the loop on the stream is `SubparseStep`, leaving the cursor at its next index |
| TokenParser.Subparse | src/GraphQLTokenParser.php:30 | the loop on the stream gives `SubparseFrom`'s nodes or error, with the cursor where it stopped |
| TokenParser.Parse | src/GraphQLTokenParser.php:19-46 | `parse` on the stream gives `ParseTag`'s result: a fragment node, none, or the first error |
| TokenParser.OutsideMainScope | src/GraphQLTokenParser.php:21-27 | outside the template's root level the tag is refused at its own line with the message "GraphQL queries cannot be defined in blocks."; nothing else is read |
| TokenParser.BlockEndAfterTag | src/GraphQLTokenParser.php:29 | a tag name not followed by a block end is an "unexpected token" error |
| TokenParser.SubparseStops | src/GraphQLTokenParser.php:30 | the body loop ends at end of file or just after `endgraphql`, keeping every node already collected |
| TokenParser.ParsedTagShape | src/GraphQLTokenParser.php:29-31 | a parsed tag is a block end, the body, a block start, `endgraphql` and a block end; a body that never reaches `endgraphql` is an error |
| TokenParser.SingleTextBody | src/GraphQLTokenParser.php:32-34 | a body holding one text gives that text as the fragment, verbatim |
| TokenParser.EmptyBody | src/GraphQLTokenParser.php:45 | an empty body gives no fragment |
| TokenParser.TextAndPrintBody | src/GraphQLTokenParser.php:45 | text plus a printed expression is not a single text: no fragment |
| TokenParser.SubparseTextsFromTokens | src/GraphQLTokenParser.php:30 | every text node of the body is the value of a text token inside the body |
| TokenParser.FragmentIsBodyText | src/GraphQLTokenParser.php:32-34 | a fragment is the verbatim value of a text token inside the tag |
| MetadataNode.Operations | src/GraphQLNode.php:74-76 | filtering for operations keeps at most the definitions there are, and keeps none exactly when none is an operation |
| MetadataNode.HasOperations | src/GraphQLNode.php:78 | `(bool) $operations` holds exactly when some definition is an operation |
| MetadataNode.Merge | src/GraphQLNode.php:82-84 | `array_reduce` with `array_merge` keeps the carry in front and drops no element of any list |
| MetadataNode.Arguments | src/GraphQLNode.php:80-84 | every variable of every operation is an argument, and a document without operations has none |
| MetadataNode.MergeCarry | src/GraphQLNode.php:82-84 | reducing with `array_merge` onto a carry prepends the carry |
| MetadataNode.OperationsAppend | src/GraphQLNode.php:74-76 | the operations of two documents are those of the first, then those of the second |
| MetadataNode.MergeAppend | src/GraphQLNode.php:82-84 | merging two runs of lists is merging each one and concatenating |
| MetadataNode.ArgumentsAppend | src/GraphQLNode.php:80-84 | the arguments of a document are those of its first part, then those of the rest, order and repeats kept |
| MetadataNode.ArgumentsOfOne | src/GraphQLNode.php:80-84 | an operation contributes exactly its variables; a fragment contributes none |
| MetadataNode.FragmentsOnly | src/GraphQLNode.php:74-78 | a document of fragments only has no operations and no arguments |
| MetadataNode.NewNode | src/GraphQLNode.php:65-85 | the stored query is trimmed, and parent and includes are stored as given. It fails exactly when the trimmed query is truthy and the parser rejects it, with the parser's message. Otherwise the operations flag and arguments come from the parsed definitions, or are false and empty for a falsy query |
| MetadataNode.FalsyQueryNotParsed | src/GraphQLNode.php:70 | a falsy trimmed query (`""` or `"0"`) never reaches the parser and never fails |
| MetadataNode.ParserSeesTrimmedQuery | src/GraphQLNode.php:66-71 | the parser is consulted only on the trimmed query |
| MetadataNode.WhitespaceInsensitive | src/GraphQLNode.php:66 | surrounding whitespace does not change the node |
| MetadataNode.Compiler.constructor | src/GraphQLNode.php:93 | a compiler starts with no output |
| MetadataNode.Compiler.Write | src/GraphQLNode.php:96 | `write` appends raw code and nothing else |
| MetadataNode.Compiler.String | src/GraphQLNode.php:99 | `string` appends a string literal |
| MetadataNode.Compiler.Repr | src/GraphQLNode.php:98 | `repr` appends a boolean literal |
| MetadataNode.ListItemsSnoc | src/GraphQLNode.php:104-106 | the items of a longer list end with the new value and a comma |
| MetadataNode.ListItemsAppend | src/GraphQLNode.php:104-106 | the items of two lists in a row are the items of each |
| MetadataNode.WriteItems | src/GraphQLNode.php:104-106 | the `foreach` appends each value as a literal followed by a comma, in order |
| MetadataNode.Compile | src/GraphQLNode.php:93-115 | `compile` appends exactly the trait and the five metadata methods |
| MetadataNode.WriteHeader | src/GraphQLNode.php:96-102 | the trait line, the three scalar methods and the opening of the includes list, in that order |
| MetadataNode.WriteStringMethod | src/GraphQLNode.php:99-100 | a static method returning the value as a string literal |
| MetadataNode.DecodeListItems | src/GraphQLNode.php:104-108 | a compiled list literal reads back as exactly its values, leaving what follows it |
| MetadataNode.DecodeEmitted | src/GraphQLNode.php:93-115 | round trip: the compiled class reads back as exactly the node, with one list element per include and per argument, in order |
| TemplateGraph.Fragment | src/GraphQLTemplateTrait.php:59-70 | the effective fragment is `""` or truthy |
| TemplateGraph.Chain | src/GraphQLTemplateTrait.php:49-51 | the template, then each template its parent link leads to, ending at one without a parent or whose parent is not a template |
| TemplateGraph.FragmentIsNearestOnChain | src/GraphQLTemplateTrait.php:59-70 | the effective fragment is the query of the nearest template on the parent chain whose query is truthy, and is `""` exactly when there is none |
| TemplateGraph.OwnQueryWins | src/GraphQLTemplateTrait.php:63-64 | a truthy own query is the fragment |
| TemplateGraph.FallsBackToParent | src/GraphQLTemplateTrait.php:66-67 | a falsy own query gives the parent's effective fragment, or `""` without a parent |
| TemplateGraph.Includes | src/GraphQLTemplateTrait.php:78-86 | the include ids hold no repeats and are all known templates |
| TemplateGraph.Expand | src/GraphQLTemplateTrait.php:81-83 | the `+=` loop keeps the accumulated ids free of repeats and made of known templates |
| TemplateGraph.GetIncludes | src/GraphQLTemplateTrait.php:78-86 | the loop method computes `Includes` |
| TemplateGraph.ExpandStep | src/GraphQLTemplateTrait.php:81-83 | one turn of the loop merges the next direct include's own includes |
| TemplateGraph.ExpandMembers | src/GraphQLTemplateTrait.php:81-83 | an id is in the loop's result exactly when it was accumulated or is an include of a visited direct include |
| TemplateGraph.IncludesAreReachable | src/GraphQLTemplateTrait.php:78-86 | the include list holds exactly the ids reachable through include edges |
| TemplateGraph.ExpandPrefix | src/GraphQLTemplateTrait.php:81-83 | the loop only appends: the ids accumulated so far stay in front, in order |
| TemplateGraph.IncludesPrefix | src/GraphQLTemplateTrait.php:79-85 | the flipped direct includes come first, in stored order |
| TemplateGraph.IncludesEmpty | src/GraphQLTemplateTrait.php:79-80 | there are no includes exactly when there are no direct includes |
| TemplateGraph.DirectIncludesFirst | src/GraphQLTemplateTrait.php:79 | direct includes stored without repeats come first, exactly as stored |
| TemplateGraph.FragmentsOf | src/GraphQLTemplateTrait.php:27-29 | one effective fragment per include id, position by position |
| TemplateGraph.LoadFragments | src/GraphQLTemplateTrait.php:33-35 | loading a list of names succeeds exactly when all are templates, with one fragment each; otherwise it fails on a name that is not a template |
| TemplateGraph.QueryComposition | src/GraphQLTemplateTrait.php:16-41 | the query fails exactly when the template has a parent that is not a template, or has a parent and some include fragment text is not a template id; the error names that id. Otherwise it is the own effective fragment and then every include's fragment, newline-joined |
| TemplateGraph.Query | src/GraphQLTemplateTrait.php:16-41 | `getGraphQLQuery` fails only for a template with a parent, and a result always starts with the own effective fragment |
| TemplateGraph.QueryLength | src/GraphQLTemplateTrait.php:40 | no fragment is dropped: the length is all fragments plus one newline per include |
| TemplateGraph.QueryWithoutIncludes | src/GraphQLTemplateTrait.php:22-40 | without includes, the query is the effective fragment, parent or not |
| TemplateGraphSafe.IncludesFuelAgrees | src/GraphQLTemplateTrait.php:78-86 | with enough depth, the as-written recursion returns `Includes` |
| TemplateGraphSafe.IncludesFuel | src/GraphQLTemplateTrait.php:78-86 | the as-written recursion, bounded: a throw names an id that is not a template, and a result lists only templates |
| TemplateGraphSafe.ExpandFuel | src/GraphQLTemplateTrait.php:81-83 | the as-written loop, bounded: a throw names an id that is not a template; a result has visited only templates and adds only templates |
| TemplateGraphSafe.ExpandFuelAgrees | src/GraphQLTemplateTrait.php:81-83 | with enough depth, the as-written loop returns `Expand` |
| TemplateGraphSafe.SelfIncludeNeverReturns | src/GraphQLTemplateTrait.php:78-86 | a template that includes itself never returns, at any depth |
| TemplateGraphSafe.UnknownIncludeThrows | src/GraphQLTemplateTrait.php:82 | a direct include that is not a template makes the recursion throw on that id, at every positive depth |
| TemplateGraphSafe.MarkingShrinks | src/GraphQLTemplateTrait.php:82 | marking an unvisited id leaves fewer ids to visit |
| TemplateGraphSafe.SafeFragment | src/GraphQLTemplateTrait.php:59-70 | the corrected fragment is `""` or truthy, on every graph |
| TemplateGraphSafe.Known | src/GraphQLTemplateTrait.php:82 | keeps exactly the ids that are templates, in order, and keeps all of them when all are templates |
| TemplateGraphSafe.SafeIncludes | src/GraphQLTemplateTrait.php:78-86 | the corrected include ids hold no repeats and are all known templates, on every graph |
| TemplateGraphSafe.SafeExpand | src/GraphQLTemplateTrait.php:81-83 | the corrected loop keeps the accumulated ids in front, free of repeats and made of known templates |
| TemplateGraphSafe.SafeFragmentAgrees | src/GraphQLTemplateTrait.php:59-70 | wherever the as-written fragment returns, the corrected fragment is the same |
| TemplateGraphSafe.SafeIncludesAgree | src/GraphQLTemplateTrait.php:78-86 | wherever the as-written include ids are defined, the corrected ones are the same |
| TemplateGraphSafe.SafeExpandAgrees | src/GraphQLTemplateTrait.php:81-83 | wherever the as-written loop returns, the corrected loop gives the same ids |
| TemplateGraphSafe.SafeFragments | src/GraphQLTemplateTrait.php:27-29 | one corrected fragment per id, position by position |
| TemplateGraphSafe.SafeFragmentsAgree | src/GraphQLTemplateTrait.php:27-29 | wherever the as-written fragments are defined, the corrected ones are the same, position by position |
| TemplateGraphSafe.ComposedIds | src/GraphQLTemplateTrait.php:31-36 | the composed include ids have no repeats |
| TemplateGraphSafe.SafeQuery | src/GraphQLTemplateTrait.php:16-41 | the corrected query always starts with the own effective fragment |
| TemplateGraphSafe.SafeQueryNoRepeatedSource | src/GraphQLTemplateTrait.php:31-36 | every own or inherited include contributes once, and only known templates contribute |
| TemplateGraphSafe.SafeQueryAgreesWithoutParent | src/GraphQLTemplateTrait.php:16-41 | without a parent, wherever the as-written query is defined, it succeeds and equals the corrected one |
| TemplateGraphSafe.SafeQueryInheritsParentIncludes | src/GraphQLTemplateTrait.php:31-36 | with a parent, the corrected query is the own fragment, then the fragments of the own include ids, then the parent's include ids not present yet |
| TemplateGraphExamples.QueryParentMissing | src/GraphQLTemplateTrait.php:32-36 | with a parent, an include whose fragment text is not a template id makes the query throw on that text |
| TemplateGraphExamples.SafeQueryWithParent | src/GraphQLTemplateTrait.php:31-36 | the corrected query of a template with a parent, from its own and its parent's include lists |
| TemplateGraphExamples.LoneShape | src/GraphQLTemplateTrait.php:16-41 | a template with no parent and no includes queries its own query, or `""` when falsy |
| TemplateGraphExamples.ExtendShape | src/GraphQLTemplateTrait.php:66-67 | a template without a query that extends a lone template gets the parent's query |
| TemplateGraphExamples.IncludeShape | src/GraphQLTemplateTrait.php:27-29 | including a lone template appends its query after a newline |
| TemplateGraphExamples.NestedIncludeShape | src/GraphQLTemplateTrait.php:78-86 | nested includes contribute in order: own, included, included by included |
| TemplateGraphExamples.ExtendIncludeShape | src/GraphQLTemplateTrait.php:32-36 | as written, the parent's include is lost; corrected, its query follows the own query |
| TemplateGraphExamples.ParentIncludeShape | src/GraphQLTemplateTrait.php:32-36 | as written, a template with a parent and an include throws on the include's query text; corrected, the query is the parent's fragment and the include's |
| TemplateGraphExamples.RecursiveIncludeShape | src/GraphQLTemplateTrait.php:78-86 | as written, a self-include never resolves; corrected, it contributes once |
| TemplateGraphExamples.TestQuery | tests/src/Unit/GraphQLTwigExtensionTest.php:47-49 | the `query` template composes to its own query |
| TemplateGraphExamples.TestExtend | tests/src/Unit/GraphQLTwigExtensionTest.php:51-53 | `extend` composes to its parent's query |
| TemplateGraphExamples.TestDynamicExtend | tests/src/Unit/GraphQLTwigExtensionTest.php:55-57 | a dynamic parent is not recorded: `""` |
| TemplateGraphExamples.TestInclude | tests/src/Unit/GraphQLTwigExtensionTest.php:59-61 | `include` composes to `query a`, then `query c` |
| TemplateGraphExamples.TestNestedInclude | tests/src/Unit/GraphQLTwigExtensionTest.php:67-69 | `nested_include` composes to `query a`, `query b`, `query c` |
| TemplateGraphExamples.TestDynamicInclude | tests/src/Unit/GraphQLTwigExtensionTest.php:71-73 | a dynamic include is not recorded: only `query a` |
| TemplateGraphExamples.TestExtendInclude | tests/src/Unit/GraphQLTwigExtensionTest.php:75-77 | as written, `extend_include` gives only `query a`, not the expected `query a` then `query c`; the corrected query gives the expected one |
| TemplateGraphExamples.ParentWithIncludeThrows | src/GraphQLTemplateTrait.php:32-36 | a child with a parent and an include throws as written and composes both fragments when corrected |
| TemplateGraphExamples.TestRecursiveInclude | tests/src/Unit/GraphQLTwigExtensionTest.php:79-81 | as written, `recursive_include` never resolves; corrected, `recursive` gives the expected `query a { ... b }` then `fragment b on foo { bar }` |
| TemplateGraphExamples.IncludedChildQuery | src/GraphQLTemplateTrait.php:78-86 | a template that includes a template extending it composes to its own query, then the included one; the parent link is not followed |
| TemplateGraphExamples.MutualParentsQuery | src/GraphQLTemplateTrait.php:59-70 | two templates with truthy queries that extend each other: each query is its own fragment |
| TemplateGraphExamples.MissingParentThrows | src/GraphQLTemplateTrait.php:32 | a truthy query does not need its parent for the fragment, but an unknown parent makes `getGraphQLQuery` throw on it |
| ComponentLoader.Loader.constructor | src/Template/Loader/Loader.php:35-46 | the loader stores its configuration and starts with a null component map |
| ComponentLoader.Loader.ListComponents | src/Template/Loader/Loader.php:57-72 | a cache hit returns the cached map and changes nothing. Otherwise the scan is written over the component map, stored in the cache when caching is on, and returned |
| ComponentLoader.Loader.FindTemplate | src/Template/Loader/Loader.php:77-93 | the map is filled only while it is null, from the cache or a scan of the theme's `components` directory; the name is then looked up in it |
| ComponentLoader.NotComponentName | src/Template/Loader/Loader.php:85-92 | a name not starting with `#` is FALSE |
| ComponentLoader.KnownComponent | src/Template/Loader/Loader.php:85-89 | `#x` for a known component is its URI |
| ComponentLoader.UnknownComponent | src/Template/Loader/Loader.php:87-92 | `#x` for an unknown component, or with a null map, is FALSE |
| ComponentLoader.Scan | src/Template/Loader/Loader.php:62-64 | after a scan of at least one file the map exists; every listed name is in it, and every name of the start map stays |
| ComponentLoader.Lookup | src/Template/Loader/Loader.php:85-92 | a resolved name gives one of the map's URIs, and a name that does not start with `#` is FALSE |
| ComponentLoader.ScanNames | src/Template/Loader/Loader.php:62-64 | the scan gives a map exactly when it starts from one or lists a file; it holds a name exactly when the start map or some listed file has it |
| ComponentLoader.ScanLastWins | src/Template/Loader/Loader.php:62-64 | the last listed file of a name gives that name's URI |
| ComponentLoader.ScanKeeps | src/Template/Loader/Loader.php:62-64 | a name no listed file has keeps its entry |
| ComponentLoader.FreshLookupFindsLastFile | src/Template/Loader/Loader.php:78-89 | a fresh loader resolves `#x` to the URI of the last listed file named `x` |
| ComponentLoader.FreshLookupMisses | src/Template/Loader/Loader.php:78-92 | a fresh loader resolves `#x` to FALSE when no listed file is named `x` |
| Router.MakeRoute | src/Routing/GraphQLTwigRouter.php:39-47 | the route is stored under the prefix plus its theme hook, served by the `page` and `title` controllers; without `requirements` the requirements are `_access: TRUE`, and an unset title or title query is null |
| Router.RouteList | src/Routing/GraphQLTwigRouter.php:38-47 | one write per declaration, in order: key `graphql_twig.dynamic.` plus the name, and the route built from the declaration |
| Router.AllRoutes | src/Routing/GraphQLTwigRouter.php:36-51 | every write is keyed by the prefix plus its theme hook and served by the route controller |
| Router.RouteTable | src/Routing/GraphQLTwigRouter.php:34-53 | the table is a valid array |
| Router.AddThemeRoutes | src/Routing/GraphQLTwigRouter.php:38-48 | the inner loop writes one theme's declarations into the table |
| Router.Routes | src/Routing/GraphQLTwigRouter.php:34-53 | `routes()` returns the table over all themes' declarations |
| Router.PrefixKeys | src/Routing/GraphQLTwigRouter.php:39 | two route names give the same key only when they are the same name |
| Router.RoutesWellNamed | src/Routing/GraphQLTwigRouter.php:39-44 | every route is stored under the prefix plus its theme hook, with the `page` controller and `title` callback |
| Router.RouteTitles | src/Routing/GraphQLTwigRouter.php:42-43 | title and title query are the declared ones, null when not set |
| Router.RouteRequirements | src/Routing/GraphQLTwigRouter.php:45-47 | requirements are passed through when set and are `_access: TRUE` otherwise |
| Router.RouteTableAppend | src/Routing/GraphQLTwigRouter.php:36-51 | one more theme adds its writes on top of the table so far |
| Router.ThemeWithoutRoutes | src/Routing/GraphQLTwigRouter.php:37 | a theme without `routes` contributes nothing |
| Router.LaterThemeWins | src/Routing/GraphQLTwigRouter.php:36-48 | a later theme's declaration of a name replaces an earlier one |
| Router.ThemeLastWins | src/Routing/GraphQLTwigRouter.php:38-47 | within a theme, the last declaration of a name gives its route |
| Router.UndeclaredRouteKept | src/Routing/GraphQLTwigRouter.php:36-51 | a route that a later theme does not declare keeps its definition |
| BlockDeriver.Own | src/Plugin/Deriver/GraphQLTwigBlockDeriver.php:31-34 | the derivative's own keys are, in order, `admin_label`, `graphql_theme_hook` and `graphql_parameters` |
| BlockDeriver.Derivative | src/Plugin/Deriver/GraphQLTwigBlockDeriver.php:31-35 | the derivative is a valid array |
| BlockDeriver.ThemeDerivatives | src/Plugin/Deriver/GraphQLTwigBlockDeriver.php:30-36 | one write per declaration, under the block's name |
| BlockDeriver.ThemeDerivativeAt | src/Plugin/Deriver/GraphQLTwigBlockDeriver.php:30-36 | the write for a declaration is its derivative |
| BlockDeriver.Deriver.constructor | src/Plugin/Deriver/GraphQLTwigBlockDeriver.php:23-25 | a deriver starts with no derivatives |
| BlockDeriver.Deriver.AddThemeBlocks | src/Plugin/Deriver/GraphQLTwigBlockDeriver.php:30-36 | the inner loop writes one theme's derivatives into the field |
| BlockDeriver.Deriver.GetDerivativeDefinitions | src/Plugin/Deriver/GraphQLTwigBlockDeriver.php:27-40 | every theme's derivatives are written on top of the field, and the field is returned |
| BlockDeriver.ParametersDefault | src/Plugin/Deriver/GraphQLTwigBlockDeriver.php:34 | falsy parameters become `[]`; any other value is kept |
| BlockDeriver.Parameters | src/Plugin/Deriver/GraphQLTwigBlockDeriver.php:34 | `?: []`: the result is `[]` or a truthy value, and a truthy declared value is kept |
| BlockDeriver.DerivativeKeys | src/Plugin/Deriver/GraphQLTwigBlockDeriver.php:31-35 | the three own keys first, then the base definition's other keys in their order |
| BlockDeriver.DerivativeOverridesBase | src/Plugin/Deriver/GraphQLTwigBlockDeriver.php:32-34 | the translated label, the name as theme hook and the parameters win over the base definition |
| BlockDeriver.DerivativeKeepsBase | src/Plugin/Deriver/GraphQLTwigBlockDeriver.php:35 | every other base entry is kept unchanged |
| BlockDeriver.DerivativeMembers | src/Plugin/Deriver/GraphQLTwigBlockDeriver.php:31-35 | a derivative has the own keys and the base keys, no others |
| BlockDeriver.ThemeWithoutBlocks | src/Plugin/Deriver/GraphQLTwigBlockDeriver.php:29 | a theme without `blocks` contributes nothing |
| BlockDeriver.ThemeLastWins | src/Plugin/Deriver/GraphQLTwigBlockDeriver.php:30-36 | within a theme, the last declaration of a name gives its derivative |
| BlockDeriver.LaterThemeWins | src/Plugin/Deriver/GraphQLTwigBlockDeriver.php:28-38 | a later theme's declaration of a name replaces an earlier derivative |
| BlockDeriver.UndeclaredBlockKept | src/Plugin/Deriver/GraphQLTwigBlockDeriver.php:28-38 | a derivative that a later theme does not declare is kept |
| BlockDeriver.DerivativesKeyedByHook | src/Plugin/Deriver/GraphQLTwigBlockDeriver.php:31-33 | every write is keyed by its block name, which is also its theme hook |
| BlockDeriver.FreshDerivativesKeyedByHook | src/Plugin/Deriver/GraphQLTwigBlockDeriver.php:27-39 | from an empty field, every derivative's theme hook is the name it is stored under |
| BlockDeriver.DerivedBlockDefinition | src/Plugin/Deriver/GraphQLTwigBlockDeriver.php:31-35 | a block built from a derivative renders the block's name and offers its parameters, whatever the base holds |
| BlockPlugin.ArgPairs | src/Plugin/Block/GraphQLTwigBlock.php:72-74 | each configuration entry as its key and value, in order |
| BlockPlugin.Arguments | src/Plugin/Block/GraphQLTwigBlock.php:72-74 | the argument map is a valid array |
| BlockPlugin.ArgumentsKeys | src/Plugin/Block/GraphQLTwigBlock.php:72-74 | each distinct key once, in order of first appearance |
| BlockPlugin.ArgumentsLastWins | src/Plugin/Block/GraphQLTwigBlock.php:72-74 | a later entry for a key overwrites an earlier one |
| BlockPlugin.ArgumentsMissing | src/Plugin/Block/GraphQLTwigBlock.php:72-74 | a key no entry names has no argument |
| BlockPlugin.Submitted | src/Plugin/Block/GraphQLTwigBlock.php:57-62 | one entry per declared parameter, in order, with the submitted value or null |
| BlockPlugin.SubmittedValuesWin | src/Plugin/Block/GraphQLTwigBlock.php:57-62 | after a submission, every submitted value is the argument, whatever was stored before |
| BlockPlugin.WriteAttribute | src/Plugin/Block/GraphQLTwigBlock.php:37-44 | one turn writes the attribute under its `#` key, then `#default_value`, into the parameter's element |
| BlockPlugin.WriteElement | src/Plugin/Block/GraphQLTwigBlock.php:36-45 | the inner loop leaves a valid form |
| BlockPlugin.WriteForm | src/Plugin/Block/GraphQLTwigBlock.php:35-46 | the outer loop leaves a valid form |
| BlockPlugin.BlockFormOf | src/Plugin/Block/GraphQLTwigBlock.php:24-49 | the `graphql_block` part of the form is a valid array |
| BlockPlugin.WriteElementOther | src/Plugin/Block/GraphQLTwigBlock.php:36-45 | the inner loop touches only its own parameter's element |
| BlockPlugin.WriteElementCreates | src/Plugin/Block/GraphQLTwigBlock.php:36-45 | it creates the element exactly when the parameter has attributes |
| BlockPlugin.WriteElementLocal | src/Plugin/Block/GraphQLTwigBlock.php:36-45 | the element built depends only on the element it starts from |
| BlockPlugin.DefaultValueWritten | src/Plugin/Block/GraphQLTwigBlock.php:44 | once a parameter has an attribute, its element carries the default value |
| BlockPlugin.HashKeys | src/Plugin/Block/GraphQLTwigBlock.php:38 | `#k` and `#k'` are the same key only for the same attribute name |
| BlockPlugin.AttributeWritten | src/Plugin/Block/GraphQLTwigBlock.php:37-42 | each attribute other than `default_value` lands under its `#` key with its last value, translated for `title` and `description` |
| BlockPlugin.AttributeKeysMembers | src/Plugin/Block/GraphQLTwigBlock.php:38 | the `#` keys are exactly those of the listed attributes |
| BlockPlugin.ElementKeys | src/Plugin/Block/GraphQLTwigBlock.php:36-45 | a fresh element holds `#default_value` and the `#` attribute keys, nothing else |
| BlockPlugin.ElementKeyMembers | src/Plugin/Block/GraphQLTwigBlock.php:36-45 | the same, key by key |
| BlockPlugin.FormNames | src/Plugin/Block/GraphQLTwigBlock.php:35-46 | the form has an element for exactly the parameters that have attributes |
| BlockPlugin.DeclaredSnoc | src/Plugin/Block/GraphQLTwigBlock.php:35 | a parameter with attributes is declared in the list when it is declared in its front part or is the last entry |
| BlockPlugin.FormElement | src/Plugin/Block/GraphQLTwigBlock.php:35-46 | a parameter declared once gets the element its own inner loop builds from scratch |
| BlockPlugin.FormOnlyDeclared | src/Plugin/Block/GraphQLTwigBlock.php:35-46 | form elements exist exactly for the declared parameters that have attributes |
| BlockPlugin.FormDefaultValue | src/Plugin/Block/GraphQLTwigBlock.php:44 | `#default_value` is the stored argument when set, and `""` otherwise |
| BlockPlugin.FormAttribute | src/Plugin/Block/GraphQLTwigBlock.php:37-42 | each attribute appears under its `#` key, translated when it is the title or the description |
| BlockPlugin.FormElementKeys | src/Plugin/Block/GraphQLTwigBlock.php:35-46 | a declared parameter's element has its attributes and `#default_value`, and no other key |
| BlockPlugin.Block.constructor | src/Plugin/Block/GraphQLTwigBlock.php:19 | a block holds its plugin definition and its configuration list |
| BlockPlugin.Block.CollectArguments | src/Plugin/Block/GraphQLTwigBlock.php:72-74 | the loop turns the configuration list into the argument map |
| BlockPlugin.Block.Build | src/Plugin/Block/GraphQLTwigBlock.php:69-80 | `build` renders the plugin definition's theme hook with the argument map |
| BlockPlugin.Block.BlockSubmit | src/Plugin/Block/GraphQLTwigBlock.php:54-64 | `blockSubmit` keeps the old entries and appends one per declared parameter |
| BlockPlugin.Block.BlockForm | src/Plugin/Block/GraphQLTwigBlock.php:24-49 | `blockForm` gives the form of `BlockFormOf` |
| BlockPlugin.WriteParameter | src/Plugin/Block/GraphQLTwigBlock.php:36-45 | the inner loop for one parameter computes `WriteElement` |

## Left out

- The Twig extension, the node visitor that collects parent and include ids, and the render hook that runs the query: these are not part of this model. The template graph starts from the facts the visitor records.
- The unit test `testEmbed`: which ids the visitor records for `{% embed %}` is not visible here.
- The embedded GraphQL parser and the query processor: the parser is a function parameter of `NewNode`.
- Twig's expression parser and nested tags. In `subparse`, a printed expression or a nested tag is skipped up to its closing token, as one node, with no parse of its own.
- Twig's wording of "unexpected token" errors: the model keeps the expected and found kinds and the line. An unknown tag name is not told apart from a known one.
- `instanceof` checks: `Twig_Source` versus an inline string is the `Input` datatype. `$this instanceof \Twig_Template` always holds for a template.
- The `catch` in `parse`: the fragment node's constructor only stores the string and cannot throw, so the rethrow cannot happen.
- String escaping in compiled code, and the output's indentation: compiled literals are abstract `Literal` chunks.
- PHP's loose comparisons and numeric-string array keys: keys are strings throughout.
- File system, cache backend, `t()`, the active theme's path and `listInfo()`: these are inputs (maps, the `Translated` marker, sequences of info arrays).
- The sidecar lookup is a map from paths to contents. `file_exists` and `file_get_contents` cannot disagree in the model.
- The PCRE backtracking limit: the model assumes every match attempt completes.
- PHP 8's `TypeError` for `array_key_exists` on a null component map: the model follows PHP 7, where the lookup is FALSE.
- PHP warnings for missing array keys: a missing key reads as null.
- Symfony's normalisation of a `Route` (path prefixing, defaults as an array): a route is its three constructor arguments.
- BlockPlugin.Block.BlockForm: returns only the `graphql_block` part of the form, not the rest of the parent's form, and does not keep the order of attributes inside an element.
- BlockPlugin.Block: an unset `graphql_block` configuration is the empty list. `build` then gives no arguments, as `blockForm`'s `isset` does.
- TemplateGraph.Fragment: the as-written fragment requires a measure on the parent links it follows. A template with a falsy query whose parent is not a template throws in the source, and a cycle of templates with falsy queries does not return; both are outside the model.
- TemplateGraph.Includes: the as-written include ids require a measure on include links. An unknown include, which throws, and an include cycle, which does not return, are modelled by `IncludesFuel` instead.
- TemplateGraph.Query: it requires both measures, and that the includes and the parent's fragment texts it loads are covered by the fragment measure. An unknown parent or fragment text gives `Err`.
- TemplateGraphSafe.IncludesFuel: non-termination is modelled as `Unfinished` within the given depth, for every depth.
- TemplateGraphSafe.SafeQuery: it inherits the include ids of the direct parent's `getGraphQLIncludes`, not those of every ancestor, since the parent branch of the source only reaches one level.
- BlockDeriver: the property that a later theme wins is stated theme by theme (`LaterThemeWins`), not as one lemma over an arbitrary split of the theme list.

## Findings

| source | as written | input that shows it | evidently intended | confidence | as-written member | corrected member |
|---|---|---|---|---|---|---|
| src/GraphQLTemplateTrait.php:32-36 | the parent branch maps `loadTemplate(...)->getGraphQLFragment()` over `$includes`, which by then holds fragment texts, and unions the result by the same numeric keys | `extend_include` of the unit tests (own query `query a { foo }`, extends `fragment`, which includes `sub_fragment`): the result is `query a { foo }`, while the test expects `query a { foo }\nquery c { foo }`. A template with a parent and an include throws, because the include's query text is not a template name | the parent's transitive include ids are added, each contributing its effective fragment once | high, not executed | TemplateGraph.QueryComposition, TemplateGraphExamples.TestExtendInclude, TemplateGraphExamples.ParentWithIncludeThrows | TemplateGraphSafe.SafeQueryInheritsParentIncludes, TemplateGraphSafe.SafeQueryNoRepeatedSource |
| src/GraphQLTemplateTrait.php:78-86 | `getGraphQLIncludes` recurses into every direct include with no visited set | `recursive_include` of the unit tests includes itself: the recursion never returns, while the test `testRecursiveInclude` expects `query a { ... b }\nfragment b on foo { bar }` | a template already being expanded is not expanded again, so a self-include contributes once | high, not executed | TemplateGraphSafe.SelfIncludeNeverReturns, TemplateGraphExamples.TestRecursiveInclude | TemplateGraphSafe.SafeIncludesAgree, TemplateGraphExamples.RecursiveIncludeShape |
