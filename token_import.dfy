/**
 * The `IMPORT_TOKENS` handler of the plugin's main thread: one pass over the
 * entries of the first category, with a table from `group` to collection that is
 * filled lazily. Whether a group still needs a collection is decided by the
 * own-key test of `TokenSpec.Step` (`group in table`), which replaces the
 * handler's property read on a plain object; `ObjectLookup` models that read and
 * where the two differ.
 */
module TokenImport {
  import opened Wrappers
  import opened JsParseInt
  import opened FigmaHost
  import opened TokenSpec

  lemma AppendThenUpdate<T>(s: seq<T>, a: T, b: T)
    ensures (s + [a])[|s| := b] == s + [b]
  {
  }

  /** Every binding of `table` names a collection of `host` by its own id and mode. */
  ghost predicate TableFits(table: map<Option<string>, Collection>, host: Host)
    reads host
  {
    forall g :: g in table ==>
      table[g].id.index < |host.collections| && table[g].defaultModeId == ModeOf(table[g].id)
  }

  /**
   * The host holds the collections and variables of run `r` after `cs0` and `vs0`,
   * and `table` is the run's table.
   */
  ghost predicate Holds(host: Host, table: map<Option<string>, Collection>, r: Run,
                        cs0: seq<Collection>, vs0: seq<Variable>)
    reads host
  {
    && host.Valid() && TableFits(table, host) && table == r.table
    && host.collections == cs0 + r.collections && host.variables == vs0 + r.variables
  }

  /**
   * The loop body for the entry `name: token`: create the group's collection if the
   * table has none for it, then create the variable in the group's collection and
   * set its default-mode value to `parseInt(token.value)`. This is one `Step`.
   */
  method ImportEntry(host: Host, table: map<Option<string>, Collection>, name: string, token: Token,
                     ghost r: Run, ghost cs0: seq<Collection>, ghost vs0: seq<Variable>)
    returns (table': map<Option<string>, Collection>)
    requires Holds(host, table, r, cs0, vs0)
    modifies host
    ensures Holds(host, table', Step(r, (name, token), |cs0|), cs0, vs0)
    ensures host.errors == old(host.errors)
  {
    table' := table;
    if token.group !in table' {
      var c := host.CreateVariableCollection(token.group);
      table' := table'[token.group := c];
    }
    ghost var before := host.variables;
    var v := host.CreateVariable(name, table'[token.group].id, Float);
    host.SetValueForMode(v, table'[token.group].defaultModeId, ParseInt(token.value));
    AppendThenUpdate(before, Variable(name, table'[token.group].id, Float, map[]),
      VariableFor((name, token), table'[token.group]));
  }

  /**
   * The `size` branch of the handler: one pass over the category's entries that
   * fills the `collections` table lazily and creates one variable per entry, which
   * is `Walk` over the entries, after what the host already holds.
   */
  method ImportSizeCategory(host: Host, properties: seq<Property>)
    requires host.Valid()
    modifies host
    ensures host.Valid()
    ensures host.errors == old(host.errors)
    ensures host.collections == old(host.collections) + Walk(properties, |old(host.collections)|).collections
    ensures host.variables == old(host.variables) + Walk(properties, |old(host.collections)|).variables
  {
    var collections: map<Option<string>, Collection> := map[];
    ghost var cs0, vs0 := host.collections, host.variables;
    assert properties[..0] == [];
    for i := 0 to |properties|
      invariant Holds(host, collections, Walk(properties[..i], |cs0|), cs0, vs0)
      invariant host.errors == old(host.errors)
    {
      var (name, value) := properties[i];
      assert properties[..i + 1] == properties[..i] + [(name, value)];
      WalkSnoc(properties[..i], (name, value), |cs0|);
      collections := ImportEntry(host, collections, name, value, Walk(properties[..i], |cs0|), cs0, vs0);
    }
    assert properties[..|properties|] == properties;
  }

  /**
   * The `IMPORT_TOKENS` handler. `completed` is false when the file has no
   * top-level entry: destructuring `Object.entries(file)[0]` then throws before
   * anything is reported or created. Otherwise it reports the unsupported-category
   * error when due and, for `size`, creates the collections and variables of
   * `Walk`, after those already in the host.
   */
  method ImportTokens(host: Host, file: TokenFile) returns (completed: bool)
    requires host.Valid()
    modifies host
    ensures host.Valid()
    ensures completed <==> |file| > 0
    ensures host.errors == old(host.errors) + CategoryErrors(file)
    ensures host.collections ==
      old(host.collections) + Walk(SizeProperties(file), |old(host.collections)|).collections
    ensures host.variables ==
      old(host.variables) + Walk(SizeProperties(file), |old(host.collections)|).variables
  {
    if |file| == 0 {
      return false;
    }
    var (category, properties) := file[0];
    if category !in AllowCategories {
      host.ReportError(UnsupportedCategoryMessage());
    }
    if category == "size" {
      ImportSizeCategory(host, properties);
    }
    return true;
  }
}
