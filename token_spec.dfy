/**
 * The data the `IMPORT_TOKENS` handler reads, and functions that say what one run
 * of it adds to the host: the reported errors, the collections (one per distinct
 * `group`, in order of first occurrence) and the variables (one per entry).
 */
module TokenSpec {
  import opened Wrappers
  import opened JsParseInt
  import opened FigmaHost

  /** A token as the handler reads it: the `value` string and the optional `group`. */
  datatype Token = Token(value: string, group: Option<string>)

  /** One entry of a category object: the token's key and the token. */
  type Property = (string, Token)

  /** One top-level entry of the file: the category name and its entries in order. */
  type Category = (string, seq<Property>)

  /** The parsed file as `Object.entries` lists it. */
  type TokenFile = seq<Category>

  /** The whitelist the handler checks; only `size` is accepted. */
  const AllowCategories: seq<string> := ["size"]

  const UnsupportedPrefix: string := "We currently only support the following categories: "

  /** `parts.join(sep)`. */
  function Join(parts: seq<string>, sep: string): string
  {
    if |parts| == 0 then ""
    else if |parts| == 1 then parts[0]
    else parts[0] + sep + Join(parts[1..], sep)
  }

  /** The message reported for a category outside the whitelist. */
  function UnsupportedCategoryMessage(): string
  {
    UnsupportedPrefix + Join(AllowCategories, ", ")
  }

  /** The errors one run reports: one message when the first category is not allowed. */
  function CategoryErrors(file: TokenFile): seq<string>
  {
    if |file| > 0 && file[0].0 !in AllowCategories then [UnsupportedCategoryMessage()] else []
  }

  /** The entries one run materialises: those of the first category when it is `size`. */
  function SizeProperties(file: TokenFile): seq<Property>
  {
    if |file| > 0 && file[0].0 == "size" then file[0].1 else []
  }

  /** The set of `group` values that occur among the entries. */
  ghost function GroupSet(props: seq<Property>): set<Option<string>>
  {
    set k | 0 <= k < |props| :: props[k].1.group
  }

  /** The collection the fake host creates as its `index`-th one, named `name`. */
  function CollectionAt(index: nat, name: Option<string>): Collection
  {
    Collection(CollectionId(index), name, ModeOf(CollectionId(index)))
  }

  /** The variable made for one entry in collection `c`, holding `parseInt(value)`. */
  function VariableFor(p: Property, c: Collection): Variable
  {
    Variable(p.0, c.id, Float, map[c.defaultModeId := ParseInt(p.1.value)])
  }

  /**
   * What a run has produced after some entries: the handler's `collections` table
   * from `group` to collection, and the collections and variables created so far.
   */
  datatype Run = Run(
    table: map<Option<string>, Collection>,
    collections: seq<Collection>,
    variables: seq<Variable>)

  /**
   * The effect of walking one more entry `x`: if its group is not yet in the table
   * it gets the next collection, numbered after the `base` collections the host
   * held before the run; then the entry gets a variable in its group's collection.
   */
  function Step(r: Run, x: Property, base: nat): Run
  {
    var g := x.1.group;
    var r' :=
      if g in r.table then r
      else
        var c := CollectionAt(base + |r.collections|, g);
        r.(table := r.table[g := c], collections := r.collections + [c]);
    r'.(variables := r'.variables + [VariableFor(x, r'.table[g])])
  }

  /** The effect of walking the entries `props` in order, from an empty table. */
  function Walk(props: seq<Property>, base: nat): Run
  {
    if props == [] then Run(map[], [], [])
    else Step(Walk(props[..|props| - 1], base), props[|props| - 1], base)
  }

  /** Walking one more entry is one `Step`. */
  lemma WalkSnoc(q: seq<Property>, x: Property, base: nat)
    ensures Walk(q + [x], base) == Step(Walk(q, base), x, base)
  {
    assert (q + [x])[..|q|] == q;
  }
}
