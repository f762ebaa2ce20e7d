# snaql block compiler, modelled in Dafny

snaql compiles annotated Jinja templates into named SQL-query generators.
A template holds `{% sql 'name' [, note = '...' | , cond_for = 'owner'] %}
... {% endsql %}` blocks. This project models the bookkeeping and dispatch
that `snaql/factory.py` wraps around Jinja:

- **Text** (`text.dfy`): Python's `str.strip()`, `str.split()`,
  `' '.join(...)` and list slicing, plus the whitespace collapse
  `' '.join(s.split())` and its normal form.
- **Registry** (`registry.dfy`): the metadata dictionary of one block, as a
  record with one optional field per key (`raw_sql`, `sql`, `note`,
  `is_cond`, `cond_for`, `conds`), and the exceptions raised.
- **Extension** (`extension.dfy`): the `sql` tag. It covers the header
  grammar over an abstract token list, the slicing of `raw_sql` out of the
  stripped source lines, and registration at parse time. It also covers the
  update at render time (`sql`, `note`, `is_cond`, `cond_for`, and the
  owner's `conds`). `SqlParams` is the environment's mutable
  `sql_params` dictionary, as a class.
- **Generator** (`generator.dfy`): `gen_func` and the `fn` closure. Keyword
  values are a tagged variant: `Plain`, `CondRef(name)` (a generator whose
  `is_cond` flag is set), `OtherCallable` (a callable with no `is_cond`
  attribute, on which `subrender_cond` raises `AttributeError`) or `Seq`.
  A plain object carries its own truthiness. `KeywordLoop` is the
  imperative keyword loop, proved equal to the specification function
  `Resolve`; `Call` is proved equal to `Invoke`. The lemmas about them
  state in both directions what a successful loop and call produce.
- **Factory** (`factory.dfy`): `Snaql.load_queries`. It builds one
  generator per registered name over a snapshot of the registry, then
  clears the scratch state.

Jinja rendering is a function-valued parameter
`render: (string, Context) -> Result<string, Error>`. `escape_string` from
`snaql/convertors` is a parameter `escape: string -> string`. Inputs
that come through the engine are also parameters: the template's lines, the
header tokens with the line numbers of the two tags, and the rendered body
of a block.

On these points the model follows the code as written:

- `_sql_process` appends the `cond_for` value, which is the owner's own
  name, to the owner's `conds` (line 99). It does not append the
  conditional's name. No other code reads `conds`.
- Nothing is linked when the owner is absent (line 98). No placeholder
  entry is created.
- `raw_sql` is the space-join of the stripped lines (lines 46, 85). Runs
  of whitespace inside a line are not collapsed.
- A conditional that renders to the empty string leaves the generator
  itself as the keyword value (line 164). It is not replaced by an empty
  value. Inside a sequence, an empty result is dropped (line 171), and so
  is any falsy plain element: `0`, `''`, `None`, `False`, and objects such
  as `0.0`, `Decimal(0)` or `timedelta(0)`.
- Whitespace is Python 2's `unicode.isspace` (the source is decoded at
  line 39 before lines 46 and 95 strip and split it), so U+180E counts as
  whitespace as well.
- The parametrized result is escaped (line 175). The stored `sql` returned
  for a call without keywords is not (line 177).
- Duplicate block names are not rejected: the later registration replaces
  the earlier entry.
- A block that was registered but never rendered has no `note` or
  `is_cond`. `load_queries` then fails on that key and leaves the scratch
  state uncleared.

## Model

| member | source | states |
|---|---|---|
| `Text.IsSpace` | snaql/factory.py:39-46 | the whitespace set of Python 2 `unicode` strings: among ASCII exactly tab to carriage return, the separators 0x1C-0x1F and space; U+180E and U+3000 are whitespace, the zero-width space and the byte-order mark are not |
| `Text.Strip` | snaql/factory.py:46 | the result is an infix of the input with only whitespace removed on both sides, and it starts and ends with non-whitespace |
| `Text.StripLines` | snaql/factory.py:45-47 | one stripped line per source line, in order, none with whitespace at its ends |
| `Text.StripLinesIdempotent` | snaql/factory.py:46 | the stored lines are already stripped: stripping them again leaves them unchanged |
| `Text.Words` | snaql/factory.py:95 | `split()` yields only non-empty words free of whitespace |
| `Text.WordsSplit` | snaql/factory.py:95 | the input is exactly its words, in order, interleaved with whitespace gaps that are non-empty between two words and may be empty at the ends, so the words are the maximal non-whitespace runs |
| `Text.JoinInterleaves` | snaql/factory.py:85 | `sep.join(ws)` is the words in order with `sep` between neighbours and nothing before the first or after the last |
| `Text.Collapse` | snaql/factory.py:95 | the collapsed body has no edge whitespace, no two whitespace characters in a row, only plain spaces, and the same words as the input |
| `Text.JoinWords` | snaql/factory.py:95 | joining words with single spaces gives a normal string that splits back into exactly those words |
| `Text.CollapsedIsJoinOfWords` | snaql/factory.py:95 | a string in normal form is the single-space join of its own words |
| `Text.CollapseFixesCollapsed` | snaql/factory.py:95 | collapsing a string already in normal form leaves it unchanged |
| `Text.CollapseIdempotent` | snaql/factory.py:95 | collapsing the stored `sql` again leaves it unchanged |
| `Text.PySlice` | snaql/factory.py:83 | a Python slice keeps the elements whose index lies in the clipped window `[start, stop)`, in order |
| `Extension.ParseHeader` | snaql/factory.py:63-80 | a header parses only if it is a name, an optional comma, at most one `note = e` or `cond_for = e`, and the end of the tag |
| `Extension.ParseSpelled` | snaql/factory.py:64-80 | every header, written out, parses back to itself whatever body follows |
| `Extension.TrailingComma` | snaql/factory.py:67-80 | a lone comma right before the end of the tag is skipped and the header has no modifier |
| `Extension.StrayAfterComma` | snaql/factory.py:67-80 | a comma followed by anything but `note`/`cond_for` or the tag end is a syntax error |
| `Extension.RawSql` | snaql/factory.py:63-85 | `raw_sql` joins with spaces exactly the stripped lines after the line of the `sql` keyword and before the line of the `%}` closing `{% endsql %}`, so the later lines of a multi-line opening tag are included; it is empty when those two lines coincide or are adjacent |
| `Extension.Registered` | snaql/factory.py:84-86 | registration sets the block's entry to one holding only `raw_sql` and keeps every other entry |
| `Extension.LinkCond` | snaql/factory.py:96-99 | a registered owner's `conds` grows by exactly one element, the `cond_for` value, with nothing else changed; an absent owner links nothing |
| `Extension.Updated` | snaql/factory.py:101-108 | the update keeps `raw_sql` and `conds`, sets `sql`, `note` (the given note or None) and `is_cond` (true iff `cond_for` was given), and writes `cond_for` only when conditional |
| `Extension.RegisterThenProcess` | snaql/factory.py:84-108 | a block registered then processed once holds its source, collapsed `sql`, note and flag, with `cond_for` present iff `is_cond` |
| `Extension.SqlParams.constructor` | snaql/factory.py:136 | the scratch state starts with neither `raws` nor `funcs` |
| `Extension.SqlParams.StoreSource` | snaql/factory.py:45-47 | the template's stripped lines are stored under its name and the registry is untouched |
| `Extension.SqlParams.Parse` | snaql/factory.py:62-86 | a syntax error or a missing source changes nothing; otherwise the block's entry is replaced by its `raw_sql` record and no other entry changes |
| `Extension.SqlParams.Process` | snaql/factory.py:93-110 | the owner is linked, then the block's entry is updated with the collapsed body, which is returned; no other entry changes; a missing entry fails after linking |
| `Generator.Assign` | snaql/factory.py:165 | writing a keyword sets that key, keeps every other key's value, and keeps an existing key in its place |
| `Generator.SubrenderCond` | snaql/factory.py:140-153 | a value that is neither a conditional nor a callable is returned as is; a callable without `is_cond` fails on the attribute; a conditional of another owner fails with the mismatch error; a conditional of this owner becomes the stripped rendering of its raw source with the current keyword map, or fails with the renderer's error |
| `Generator.SubrenderEach` | snaql/factory.py:170 | a sequence resolves element-wise in the same keyword map: it succeeds iff every element does, keeps the length, replaces each conditional by its stripped rendering and keeps the other elements |
| `Generator.SubrenderEachComplete` | snaql/factory.py:170 | elements that each resolve as stated (a conditional of the block that renders, or a non-callable kept as is) make the sequence resolve to exactly those results |
| `Generator.Truthy` | snaql/factory.py:164-171 | Python truthiness of a keyword value: `None` is falsy; text is truthy exactly when non-empty, an integer exactly when non-zero, a sequence exactly when non-empty; generators and other callables are always truthy |
| `Generator.FilterTruthy` | snaql/factory.py:171 | the filter never lengthens a sequence and keeps only truthy elements taken from it |
| `Generator.FilterAppend` | snaql/factory.py:171 | filtering distributes over concatenation, so order is kept |
| `Generator.FilterKeepsTruthy` | snaql/factory.py:171 | a sequence with no falsy element passes the filter unchanged |
| `Generator.ResolveOne` | snaql/factory.py:163-171 | one item of the loop writes only its own key, keeps an existing key in place, and ends with the error of `subrender_cond` when that fails |
| `Generator.ResolveFrom` | snaql/factory.py:162-171 | the rest of the loop keeps every key in its place |
| `Generator.Resolve` | snaql/factory.py:162-171 | the whole loop keeps every key in its place, and an empty map stays empty |
| `Generator.ResolveSound` | snaql/factory.py:162-171 | after a successful loop every key is in place and item `j` was resolved in the map as rewritten up to `j`: plain values stay; a conditional belongs to the block and renders, and is replaced by its stripped rendering unless that is empty, in which case the generator stays; a sequence becomes its element-wise rendering in order with falsy results dropped; no callable without `is_cond` was passed |
| `Generator.ResolveOneComplete` | snaql/factory.py:163-171 | an item whose value resolves to `y` as stated rewrites exactly its own position to `y` and succeeds |
| `Generator.ResolveComplete` | snaql/factory.py:162-171 | conversely, a map whose every item resolves as stated, in the map as rewritten up to it, is exactly what the loop returns |
| `Generator.PlainKeywordsStay` | snaql/factory.py:162-171 | a keyword map of plain values comes out of the loop unchanged |
| `Generator.KeywordLoop` | snaql/factory.py:162-171 | the in-place loop over the keyword items returns exactly what `Resolve` specifies |
| `Generator.Invoke` | snaql/factory.py:155-177 | a missing block is a key error; a call succeeds only for a non-conditional block, and with keywords only when the block has a raw source and the keyword loop succeeded |
| `Generator.Call` | snaql/factory.py:155-177 | the generator call returns exactly what `Invoke` specifies; a conditional block always fails; with no keywords it returns the stored `sql` |
| `Generator.ConditionalRefused` | snaql/factory.py:156-160 | a conditional block's generator always fails with the scope error, with no dependence on keywords, renderer or escaper |
| `Generator.NoKeywordsReturnsSql` | snaql/factory.py:161-177 | a non-conditional generator called with no keywords returns the stored `sql`, unescaped |
| `Generator.InvokeParametrized` | snaql/factory.py:161-175 | a successful parametrized call resolved every keyword as `ResolveSound` states and returned the escaped, stripped rendering of `raw_sql` with the resolved map |
| `Generator.InvokeComplete` | snaql/factory.py:161-175 | conversely, when the keywords resolve to a map `r`, a call to a non-conditional block with a raw source returns the escaped, stripped rendering of that source with `r`, or the renderer's error |
| `Generator.PlainKeywordsRendered` | snaql/factory.py:161-175 | a call with only plain keyword values renders the raw source with those values unchanged and returns the escaped, stripped text, or the renderer's error |
| `Generator.SucceedsOnlyWithOwnConditions` | snaql/factory.py:141-148 | a call succeeds only if every conditional passed, directly or in a sequence, is registered for the called block |
| `Generator.ForeignConditionFails` | snaql/factory.py:141-148 | passing a conditional whose owner is another block makes the call fail |
| `Generator.GenFunc` | snaql/factory.py:179-183 | a generator is built iff the entry has `note` and `is_cond`; it carries the name, docstring, flag and snapshot |
| `Generator.AsArgument` | snaql/factory.py:141-153 | a generator passed as a value is a conditional reference exactly when its flag is set; otherwise it is a plain, truthy object; it is always truthy |
| `Generator.GeneratorArgumentKept` | snaql/factory.py:141-153 | a non-conditional generator passed as a value comes out of `subrender_cond` unchanged |
| `Factory.Snaql.constructor` | snaql/factory.py:119-136 | a new compiler owns fresh, empty scratch state |
| `Factory.Snaql.LoadQueries` | snaql/factory.py:185-199 | on success there is one generator per registered name, each over the snapshot, and the scratch state is cleared; on failure it is a key error of some block and nothing is cleared |

## Left out

- File reading, path splitting, `open_if_exists`, the `uptodate` mtime check and `TemplateNotFound` in `RawFileSystemLoader`: filesystem I/O. The loader's lines arrive as a parameter of `StoreSource`; `splitlines()` is not modelled.
- Jinja's environment, lexer, `parse_expression`, `parse_statements`, template compilation and rendering: a foreign library. Rendering is a parameter. `get_template` and `template.render()` in `load_queries` (lines 186-187) drive `StoreSource`, `Parse` and `Process` in an order the engine decides, and that driving is not modelled. `LoadQueries` starts from the resulting scratch state.
- Extension.ParseHeader: header expressions are string literals only. Jinja accepts any expression, and a bare name is rejected here. The optional colon that `parse_statements` skips before the tag end is not modelled.
- `escape_string` and the guard filters in `snaql/convertors`: that module is not part of this model. `escape_string` is a parameter, and guard failures are folded into the renderer's error result.
- `namedtuple` assembly (lines 195-196): the factory is a map from name to generator. `namedtuple`'s own rejections are not modelled: names that are not identifiers, Python keywords, and names starting with an underscore. In the source such a block name fails after every generator is built, so the scratch state is not cleared.
- Python 2 details: `types.StringTypes` and the `func_name` alias. Dictionary order is not modelled either: kwargs are an ordered list of pairs, and `load_queries` visits names in an unspecified order.
- Iterables other than lists (tuples, sets, dictionaries, iterators) are modelled as `Seq`. Iterating a dictionary, which yields its keys, is not modelled.
- `copy.deepcopy`: Dafny maps are values, so the snapshot is unaffected by the clear by construction. Only the `funcs` part of the snapshot is kept, since generators read nothing else.
- Jinja's template cache: it skips parsing on a second load of the same file.
