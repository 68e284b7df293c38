# pg-cr-layer: parameter conversion and result shaping

`pg-cr-layer` is a thin layer over the `pg` client for PostgreSQL. The
caller's statements go through `query(statement, params, options)`, which
first converts the caller's parameters and then hands the statement and the
values to the driver: the pool, or the connection of a transaction. The
driver's reply is then reshaped into rows. `batch` and `execute` delegate to
`query`. The layer's own fixed statements (`BEGIN`, `COMMIT`, `ROLLBACK`
and `SELECT version()`) go straight to the `pg` client and get no
conversion.

This project models that path:

- **Named-parameter binding** (module `Placeholders`, method
  `ParamConversion.BindPlaceholders`). When `params` is a plain object,
  every `@word` token that `/(@\w*\b)/g` finds in the statement is
  replaced, in order of appearance, by `$1`, `$2`, ... . For each token,
  the value of the key after its `@` is appended to the value list. A
  repeated name gets a slot for each occurrence. Binding stops with
  `Parameter @x not found in object params` at the first token whose value
  is falsy.
  - The source runs this as a loop. Each step calls `String.prototype.replace`
    with the token text, which replaces only the first occurrence of that
    text in the current statement.
  - The model keeps that loop and proves it equal to a positional rewrite:
    the i-th token's own position becomes `$i` and every other character is
    kept. The key step is that the text before the next token has already
    been rewritten into `$k` placeholders. These contain no `@`, so the
    first occurrence of the token is the token itself.
- **Normalisation** (`ParamConversion.Normalize`). Each positional value is
  turned into the literal the driver receives:
  - a non-date object (a typed parameter `{value, type, ...}`) is sent as its
    `value` when that is defined, and as `null` otherwise;
  - `undefined` is sent as `null`;
  - every other value, falsy ones such as `0`, `''` and `false` included,
    is sent as it is.
- **Conversion as a whole** (`ParamConversion.ConvertParams`, `Prepare`):
  - falsy params (`undefined`, `null`, `0`, `''`, `false`, `NaN`) skip
    conversion and reach the driver exactly as given;
  - an array is normalised entry by entry;
  - a plain object is bound and then normalised.
- **The query and its reply** (module `Layer`):
  - a binding error rejects before the driver is called;
  - otherwise the transaction's connection is used if one is given, else the
    pool;
  - a driver error rejects as it is;
  - a single result resolves to its `rows`;
  - an array of results (a multi-statement script) resolves to one row list
    per statement.
  - `batch` is `query` with `null` params, and `execute` is `query` with the
    same arguments.
- **Identifier quoting** (`Layer.Wrap`): the identifier is put between the
  two characters of the dialect's delimiter string `""`.

JavaScript values are modelled by the `JsValues.JsValue` datatype, with
JavaScript truthiness as the predicate `Truthy`. The driver is a parameter
of `Layer.Query`: a function from the statement and the optional value list
to a reply.

Two consequences of the code are worth noting:

- The binding check is a truthiness check, not a key-presence check. A
  named value `0`, `''`, `false` or `null` is rejected as "not found",
  although the same value passes in positional form. A value wrapped as
  `{value: 0}` passes, because an object is truthy.
- An array given as one of the parameter values is an object that is not a
  date. It therefore goes through the typed-parameter branch and is sent as
  `null`, since it has no `value`.

## Model

| member | source | states |
|---|---|---|
| Placeholders.FindToken | src/index.js:206 | the scan finds the first position at or after `from` where `@` is followed by a word character, or the end; no earlier position qualifies |
| Placeholders.WordEnd | src/index.js:206 | a token's `\w*` run is maximal: all word characters, followed by a non-word character or the end |
| Placeholders.Tokens | src/index.js:206 | every matched token is `@` followed by at least one word character and nothing else; that the run is maximal is `GapsSeparated` |
| Placeholders.Gaps | src/index.js:206 | the text around the tokens has one more piece than there are tokens, and no piece holds a token |
| Placeholders.TokenCount | src/index.js:206 | the match yields exactly one token per position where a placeholder starts |
| Placeholders.SplitRoundTrip | src/index.js:206 | gaps and tokens woven back together give the original statement |
| Placeholders.GapsSeparated | src/index.js:206 | each token's word run is maximal: every non-empty gap after a token starts with a non-word character |
| Placeholders.ScanWeave | src/index.js:206 | the converse of the split: a text built from gaps holding no `@word` (an `@` operator such as `@>` is allowed) and tokens, where every later gap starts with a non-word character, is matched into exactly those tokens with exactly those gaps between them |
| Placeholders.SplitUnique | src/index.js:206 | the tokens and gaps of a statement are exactly the pieces that weave back into it with no `@word` in a gap, every token `@` and word characters, and no later gap starting with a word character |
| Placeholders.NoTokensIff | src/index.js:206-208 | the match is empty exactly when the statement has no `@word`, and then the rewrite leaves the statement unchanged |
| Placeholders.ReplaceFirst | src/index.js:210 | with no occurrence the text is unchanged; the occurrence case used by the binding loop is `ReplaceFirstToken` |
| Placeholders.IndexOf | src/index.js:210 | the search returns the first occurrence of the pattern at or after `from`, or none when there is no occurrence |
| Placeholders.DecimalString | src/index.js:210 | `'$' + i` writes `i` in decimal digits with no leading zero |
| Placeholders.DecimalRoundTrip | src/index.js:210 | the digits of `$i` read back as `i` |
| Placeholders.PlaceholderInjective | src/index.js:210 | distinct slot numbers give distinct positional placeholders |
| Placeholders.ReplaceFirstToken | src/index.js:210 | when no `@word` precedes a token, replacing the token's text at its first occurrence replaces that token and keeps the text around it |
| Placeholders.WeaveNoPlaceholder | src/index.js:209-211 | filling token-free gaps with `$i` placeholders leaves no `@word` |
| Placeholders.RewriteHasNoPlaceholder | src/index.js:206-211 | the rewritten statement contains no named placeholder |
| ParamConversion.Normalize | src/index.js:219-228 | the literal sent is never undefined; it is null exactly for undefined, null, arrays and objects without a defined `value`; dates and non-objects other than undefined are unchanged; a defined `value` is sent even when falsy |
| ParamConversion.NormalizeAll | src/index.js:219-229 | one literal per entry, in order, each the normalised entry, none undefined |
| ParamConversion.FirstMissing | src/index.js:209-216 | the index of the first token whose value is falsy; none exactly when every token's value is truthy |
| ParamConversion.BindPlaceholders | src/index.js:205-217 | the binding loop with first-occurrence replacement and the truthiness assertion computes the positional rewrite and the value lookups, or fails on the first falsy token |
| ParamConversion.BindNamedSlots | src/index.js:206-216 | a successful binding has one value per token, including repeated names; the i-th value is the i-th token's truthy lookup; the statement is the original with the i-th token replaced by `$i`; no named placeholder remains |
| ParamConversion.BindNamedFails | src/index.js:213-214 | binding fails exactly when some token's value is falsy, and the error names the first such token |
| ParamConversion.BindNamedNoPlaceholders | src/index.js:206-217 | a statement without `@word` binds to an empty value list and is unchanged, whatever keys the object holds |
| ParamConversion.BindNamedIgnoresUnreferenced | src/index.js:212-215 | keys that no token references do not affect the binding |
| ParamConversion.ConvertParams | src/index.js:203-231 | the conversion: falsy params are left alone, an array is normalised, an object is bound and then normalised; the result equals `Prepare` |
| ParamConversion.PrepareSends | src/index.js:203-231 | what reaches the driver: falsy params pass unchanged, as given; an array keeps the statement and is normalised entry by entry; a bound object sends the rewritten statement with the normalised value of each token; no value sent is undefined |
| ParamConversion.PrepareFails | src/index.js:204-217 | conversion fails only for an object parameter, and exactly when some token's value is falsy |
| Layer.Wrap | src/index.js:278-280 | the result is the identifier between a leading and a trailing double quote, two characters longer |
| Layer.Shape | src/index.js:240-244 | an array reply becomes one row list per result, in order; a single reply becomes its rows |
| Layer.QueryRejectsBeforeDriver | src/index.js:233-236 | a binding error rejects with the "Parameter @x not found in object params" message whatever the connection would answer, so the driver is never asked |
| Layer.QueryInTransaction | src/index.js:233-236 | with a transaction in the options the pool plays no part |
| Layer.QueryForwards | src/index.js:246-259 | the converted statement and values go to the chosen connection; its error rejects as it is and its reply resolves shaped into rows |
| Layer.Execute | src/index.js:188-190 | `execute` settles exactly as `query` with the same arguments, so every property of `Query` holds for it |
| Layer.BatchSendsScript | src/index.js:175-177 | a script goes to the driver unchanged and with `null` params, and a multi-statement reply resolves to one row list per statement |
| Scenarios.RepeatedNameTokens | src/index.js:206 | `(@a, @b, @a)` yields the tokens `@a`, `@b`, `@a` in order |
| Scenarios.RepeatedNameRewrite | src/index.js:209-211 | `(@a, @b, @a)` becomes `($1, $2, $3)` |
| Scenarios.RepeatedNameExample | src/index.js:206-216 | the value of a repeated name is sent once per occurrence, and an unreferenced key is ignored |
| Scenarios.InsertProductTokens | test/index.js:331-343 | the product insert yields `@product_no`, `@name`, `@price` with the text between them |
| Scenarios.CreateProductExample | test/index.js:331-343 | the product insert with all three keys becomes `VALUES ($1, $2, $3)` with the values in placeholder order |
| Scenarios.MisspeltKeyExample | test/index.js:368-382 | the product insert with `product_n` in place of `product_no` fails on `@product_no` |
| Scenarios.OperatorTokens | src/index.js:206 | in `WHERE tags @> @wanted` the operator `@>` is no placeholder; the only token is `@wanted` |
| Scenarios.OperatorRewrite | src/index.js:209-211 | `WHERE tags @> @wanted` becomes `WHERE tags @> $1` |
| Scenarios.OperatorExample | src/index.js:206-216 | a placeholder beside an `@` operator binds like any other |
| Scenarios.ExtraKeysExample | test/index.js:208-216 | an object with keys the statement never references binds to no values and leaves the statement unchanged |
| Scenarios.NormalizeExamples | test/index.js:590-679 | `null`, `undefined`, `{value: null}` and `{}` are sent as null; `0` and `''`, bare or wrapped, are sent as they are |
| Scenarios.WrapExample | test/index.js:306-308 | `abc` is wrapped as `"abc"` |

## Left out

- Pool construction, `connect`, `close`, the Redshift detection (`SELECT version()` sent straight to the `pg` client) and error logging are left out. They configure, probe or tear down the `pg` pool and involve no conversion.
- `transaction`, `beginTransaction`, `commit` and `rollback` are left out (src/index.js:88-167). They send `BEGIN`, `COMMIT` and `ROLLBACK` straight to the `pg` client, not through `query`. `transaction` also runs the caller's function, commits when its promise resolves and rolls back when it rejects, and rejects with the function's error rather than the rollback's. These are promise and connection life-cycle steps with no parameter conversion. A transaction appears here only as the connection that `query` uses.
- The type parsers registered with `pg` are left out. They are driver configuration.
- The driver is not modelled. It is an opaque function parameter of `Layer.Query`. Promises, callbacks and asynchrony are not modelled: a query is its settled outcome.
- Property lookup on the parameter object sees own keys only. Keys inherited through the prototype chain are not modelled.
- A truthy `params` that is neither an array nor a plain object is not a case of `Params`. For a string or a number the source would fail on `params.map`. A date would be bound like an object without own keys.
- Numbers are modelled as mathematical reals with `NaN` as a separate value. `-0`, infinities and BigInt are not distinguished, and dates carry an opaque time value.
- Strings are sequences of `char`, not UTF-16 code units. The word characters of `\w` are ASCII in both cases.
- `ParamConversion.BindPlaceholders` returns the rewritten statement and the value list instead of reassigning the captured `statement` and `params` variables. When binding fails, the source has already rewritten part of the statement; this partial rewrite is not observable after the rejection and is not modelled.
