# Style Dictionary tokens to Figma variables: the import handler

The plugin's main thread subscribes once to the `IMPORT_TOKENS` message. The
message carries a Style Dictionary token file. The handler reads the file's
first top-level entry, a category name and its tokens. If the category is not
in the whitelist `['size']`, it reports the error "We currently only support the
following categories: size". If the category is `size`, it walks the tokens in
order. A table from a token's `group` to a variable collection is filled
lazily. Each token becomes a `FLOAT` variable named by its key, placed in its
group's collection. Its default-mode value is `parseInt` of the token's `value`.

The Dafny model has four parts:

- `JsParseInt` (`parse_int.dfy`) is JavaScript's `parseInt(string)` without a
  radix, after section 19.2.5 of ECMA-262. White space is skipped, one sign is
  taken, `0x` switches to radix 16, and the longest digit run is read. NaN is
  `None`.
- `FigmaHost` (`figma_host.dfy`) is a recording stand-in for the `figma.variables`
  API and for the `REPORT_ERROR` message. A `Host` object holds the collections,
  variables and error messages created so far. Collection `i` has id
  `CollectionId(i)` and default mode `ModeId(i)`.
- `TokenSpec` (`token_spec.dfy`) holds the token data and the functions that say
  what one run adds. `CategoryErrors` gives the reported errors. `SizeProperties`
  gives the tokens that are materialised. `Walk` is the effect of the loop, built
  from `Step`, one token at a time. `Step` decides whether a group needs a
  collection by asking whether the table holds the group as its own key.
- `TokenImport` (`token_import.dfy`) is the handler, written imperatively over
  `Host`. `ImportTokens` runs the whole handler. `ImportSizeCategory` is its loop.
  `ImportEntry` is the loop body. Each is proved to produce exactly what
  `CategoryErrors` and `Walk` describe.

The properties are proved in two more modules. `TokenFacts` (`token_facts.dfy`)
holds the lemmas about `Walk` and the file-level functions.
`ObjectLookup` (`object_lookup.dfy`) holds the prototype-lookup finding below.

The groups of a category are `Option<string>`; a token without a `group` falls
into the bucket `None`, which is a group like any other.

## Model

| member | source | states |
|---|---|---|
| TokenImport.ImportTokens | src/main.ts:6-29 | An empty file throws before any effect (`completed` is false). Otherwise the host's errors grow by exactly `CategoryErrors(file)`. Its collections and variables grow by exactly those of `Walk` over the `size` entries, numbered after what the host already held. The host stays valid. |
| TokenImport.ImportSizeCategory | src/main.ts:18-28 | The loop over the `size` entries appends exactly `Walk(properties)`'s collections and variables to the host and reports nothing. |
| TokenImport.ImportEntry | src/main.ts:19-27 | One loop pass performs exactly one `Step`. A collection is created only when the table lacks the group. Then a variable is created in the group's collection and given its default-mode value. |
| FigmaHost.Host.CreateVariableCollection | src/main.ts:21 | Appends one collection with the next id, the given name and its own default mode, and returns it. Nothing else changes. |
| FigmaHost.Host.CreateVariable | src/main.ts:24 | Appends one variable with the given name, collection and type, with no values yet, and returns its id. |
| FigmaHost.Host.SetValueForMode | src/main.ts:26 | Sets the value of one variable for its collection's mode. Every other variable and every other mode is unchanged. |
| FigmaHost.Host.ReportError | src/main.ts:15 | Appends exactly one message to the reported errors. Nothing else changes. |
| TokenSpec.CategoryErrors | src/main.ts:12-16 | The errors of one run. `ErrorIffNotSize` proves it is the one whitelist message exactly when the first category is not `size`, and empty otherwise. `UnsupportedMessageText` gives the message's text. |
| TokenSpec.SizeProperties | src/main.ts:9-18 | The entries one run materialises. `FirstEntryOnly` proves that only the first category decides it. `ErrorIffNotSize` proves it yields nothing unless that category is `size`. |
| TokenSpec.Step | src/main.ts:19-27 | One pass of the loop, with the own-key test. `StepExtends` proves it never rebinds a group. `CollectionCreatedIffNewGroup` proves it creates a collection exactly for a new group. `StepAsWritten` proves it equals the as-written pass whenever that one gets through. |
| TokenSpec.Walk | src/main.ts:19-27 | The whole loop over the entries. `WalkWellFormed`, `CollectionsAreDistinctGroups`, `EntryVariable` and `SameCollectionIffSameGroup` prove what it creates. `ImportSizeCategory` proves the imperative loop performs it. |
| TokenFacts.FirstEntryOnly | src/main.ts:9 | Only the first top-level entry matters: appending further categories changes neither the errors nor the materialised entries. |
| TokenFacts.EmptyFileDoesNothing | src/main.ts:9 | A file with no top-level entry yields no error and no collection or variable. |
| TokenFacts.UnsupportedMessageText | src/main.ts:12-15 | The error message is the fixed prefix followed by the whitelist joined with ", ", which is "…categories: size". |
| TokenFacts.ErrorIffNotSize | src/main.ts:14-18 | For a non-empty file, exactly one error is reported iff the category is not `size`, and no error iff it is. Nothing is created unless it is `size`. For `size`, one variable is created per entry. |
| TokenFacts.WalkWellFormed | src/main.ts:19-27 | After any number of entries: the table binds exactly the groups seen so far; there are as many collections as bindings; there is one variable per entry. The collections are numbered consecutively, distinctly named, and each is the table's binding for its own name. |
| TokenFacts.StepExtends | src/main.ts:20-22 | One entry never rebinds or removes a table entry and never undoes a created collection or variable. |
| TokenFacts.WalkExtends | src/main.ts:19-27 | The run over any prefix of the entries is continued, never revised, by the full run. Its table is a sub-map of the final table, and its collections and variables are prefixes of the final ones. |
| TokenFacts.CollectionsAreDistinctGroups | src/main.ts:20-22 | One collection per distinct group: the collections' names are exactly the set of groups, pairwise distinct, so their number equals the number of distinct groups. |
| TokenFacts.CollectionCreatedIffNewGroup | src/main.ts:20-22 | Entry `k` adds one collection exactly when no earlier entry has its group, and none otherwise. |
| TokenFacts.VariableOfEntry | src/main.ts:24-26 | Variable `k` is the variable for entry `k`, made in the final table's collection for the entry's group. |
| TokenFacts.EntryVariable | src/main.ts:24-26 | Variable `k` is named by entry `k`'s key and typed `FLOAT`. It lies in a created collection named after the entry's group. Its only value, for that collection's default mode, is `parseInt(value)`. |
| TokenFacts.SameCollectionIffSameGroup | src/main.ts:20-24 | Two entries' variables share a collection iff the two entries share a group. |
| TokenFacts.BoundCollection | src/main.ts:21-26 | The collection bound to a group is one the run created. It is named after the group, and its default mode is its own mode. |
| JsParseInt.ParseInt | src/main.ts:26 | `parseInt` of a token's `value`, with NaN as `None`. `DecimalRoundTrip`, `NegativeRoundTrip`, `WhiteSpaceIgnored`, `NaNWithoutLeadingDigit` and `SixteenPixels` prove what it reads. |
| JsParseInt.DecimalRoundTrip | src/main.ts:26 | `parseInt` of a decimal numeral followed by any non-digit suffix is the numeral's value (e.g. "16px" gives 16), except a `0` followed by `x` or `X`, which switches to radix 16. |
| JsParseInt.NegativeRoundTrip | src/main.ts:26 | `parseInt` of "-" followed by a numeral and a non-digit suffix is the negated value, except a `0` followed by `x` or `X`, which switches to radix 16. |
| JsParseInt.WhiteSpaceIgnored | src/main.ts:26 | Leading JavaScript white space does not change the result of `parseInt`. |
| JsParseInt.NaNWithoutLeadingDigit | src/main.ts:26 | For an input with no leading white space, sign or `0x`, `parseInt` is NaN iff the input does not start with a decimal digit. |
| JsParseInt.SixteenPixels | src/main.ts:26 | `parseInt("16px")` is 16. |
| JsParseInt.DecimalStringValue | src/main.ts:26 | The digits of a numeral denote the number they were written from. |
| JsParseInt.TrimStart | src/main.ts:26 | The result is a suffix of the input. It does not start with white space, and everything removed is white space. |
| JsParseInt.DigitRun | src/main.ts:26 | The result is the length of the longest prefix made of digits of the radix. |
| ObjectLookup.LookupAfterWalk | src/main.ts:20 | After entries with no inherited-key group (which is as far as the loop as written gets), reading `collections[group]` finds a collection iff some entry had the group. It is `undefined` iff no entry had the group and its key is not inherited from `Object.prototype`. |
| ObjectLookup.StepAsWrittenAfterWalk | src/main.ts:20-26 | After entries whose groups have no inherited key, one more pass as written gets through iff its own key is not inherited. When it gets through it gives the own-key run one entry longer. |
| ObjectLookup.WalkAsWrittenIffNoInheritedKey | src/main.ts:19-27 | The loop as written creates exactly what `Walk` creates when no entry's group is keyed like an `Object.prototype` member. Otherwise it does not get past the first such entry. |
| ObjectLookup.StepAsWritten | src/main.ts:20-26 | The loop body as written succeeds iff the group is stored or its key is not an inherited member. When it succeeds it equals `Step`. |
| ObjectLookup.WalkAsWritten | src/main.ts:19-27 | The loop as written, stopping at the first pass that `StepAsWritten` cannot get through. `WalkAsWrittenIffNoInheritedKey` proves it equals `Walk` exactly when no group's key is an `Object.prototype` member. |
| ObjectLookup.ConstructorGroupAsWritten | src/main.ts:20-24 | On a fresh table, the entry with group "constructor" fails as written, while `Step` creates the collection "constructor" for it. |

## Left out

- Parsing the message: `JSON.parse` and what it throws on malformed input are not modelled. The model receives the file already as the ordered list `Object.entries` yields.
- Key order and duplicates: how `Object.entries` orders integer-like keys, and how duplicate JSON keys collapse, are not modelled. The model takes the entries in the order given.
- Key coercion: a missing `group` and the group string "undefined" share one object key in JavaScript. The model keeps them as two buckets, `None` and `Some("undefined")`.
- Non-string `value` fields and category bodies that are not objects are not modelled. `Token.value` is a string.
- JsParseInt.ParseInt: returns an exact integer. The source's double-precision result, its rounding of long digit runs and `-0` are not modelled.
- Host behaviour: the real `figma.variables` API (validation of names, limits, exceptions, and what it does with a NaN or `undefined` argument) is not modelled. `FigmaHost.Host` records every call as given.
- The asynchronous handler, the `once` subscription, `emit` plumbing and `showUI` are left out. `REPORT_ERROR` is modelled as `Host.ReportError`.
- `ui.tsx` and `types.ts` are not part of this model.
- Replace mode: `src/ui.tsx:36,46,73-77,82-97` offers an "Update existing" import mode and sends it with the message, but `src/main.ts` never reads it. Aliases, nested token trees and colour tokens do not appear anywhere in the source. None of these is modelled.
- TokenImport.ImportEntry: decides whether a group needs a collection with the own-key test of `TokenSpec.Step`, not with the source's property read on a plain object. For a group named like an `Object.prototype` member ("constructor", "toString", …) the source behaves as `ObjectLookup.StepAsWritten` and `ObjectLookup.WalkAsWrittenIffNoInheritedKey` say, not as `TokenImport.ImportTokens` does (see the finding below).

## Findings

| source | as written | input that shows it | evidently intended | confidence | as-written member | corrected member |
|---|---|---|---|---|---|---|
| src/main.ts:20-24 | `collections[value.group] === undefined` reads the plain object `{}`, so a group named like an `Object.prototype` member is not `undefined` even though no collection was stored | an entry `{"value": "4", "group": "constructor"}` in category `size`: no collection is created and the variable is requested in collection `undefined` | every distinct group gets its own collection, including "constructor", "toString" or "__proto__" (an own-key test, as with a `Map`) | not executed | ObjectLookup.StepAsWritten | TokenSpec.Step |

The corrected `TokenSpec.Step` uses membership of the group in the table, an
own-key test. `TokenFacts.CollectionsAreDistinctGroups` proves that every
distinct group gets a collection named after it. `ObjectLookup.ConstructorGroupAsWritten`
exhibits the failing input on the as-written lookup.
`ObjectLookup.WalkAsWrittenIffNoInheritedKey` proves that the loop as written and the
corrected loop agree exactly on the inputs where no group is keyed like an inherited
member.
