/**
 * What one run of the `IMPORT_TOKENS` handler does, stated over `Walk` and the
 * file-level functions of `TokenSpec`, and proved.
 */
module TokenFacts {
  import opened Wrappers
  import opened JsParseInt
  import opened FigmaHost
  import opened TokenSpec

  /** Collection `i` of a run is the host's `base + i`-th collection. */
  ghost predicate Numbered(cs: seq<Collection>, base: nat)
  {
    forall i :: 0 <= i < |cs| ==> cs[i] == CollectionAt(base + i, cs[i].name)
  }

  /** Every binding of the table is a created collection named after its own group. */
  ghost predicate BindingsCreated(table: map<Option<string>, Collection>, cs: seq<Collection>, base: nat)
  {
    forall g :: g in table ==>
      table[g].name == g
      && base <= table[g].id.index < base + |cs|
      && cs[table[g].id.index - base] == table[g]
  }

  /** Every created collection is bound in the table under its name. */
  ghost predicate CreatedBound(table: map<Option<string>, Collection>, cs: seq<Collection>)
  {
    forall i :: 0 <= i < |cs| ==> cs[i].name in table
  }

  /** No two created collections carry the same name. */
  ghost predicate Distinct(cs: seq<Collection>)
  {
    forall i, j :: 0 <= i < j < |cs| ==> cs[i].name != cs[j].name
  }

  /**
   * The shape every run keeps: its collections are numbered after `base` and
   * distinctly named, each is the table's binding for its group, and the table
   * binds nothing else.
   */
  ghost predicate WellFormed(r: Run, base: nat)
  {
    Numbered(r.collections, base) && Distinct(r.collections)
    && BindingsCreated(r.table, r.collections, base) && CreatedBound(r.table, r.collections)
  }

  lemma AddNumbered(cs: seq<Collection>, c: Collection, base: nat)
    requires Numbered(cs, base) && c == CollectionAt(base + |cs|, c.name)
    ensures Numbered(cs + [c], base)
  {
    var cs' := cs + [c];
    forall i | 0 <= i < |cs'| ensures cs'[i] == CollectionAt(base + i, cs'[i].name) {
      if i < |cs| { assert cs'[i] == cs[i]; }
    }
  }

  lemma AddDistinct(table: map<Option<string>, Collection>, cs: seq<Collection>, c: Collection)
    requires Distinct(cs) && CreatedBound(table, cs) && c.name !in table
    ensures Distinct(cs + [c]) && CreatedBound(table[c.name := c], cs + [c])
  {
    var cs' := cs + [c];
    forall i, j | 0 <= i < j < |cs'| ensures cs'[i].name != cs'[j].name {
      assert cs'[i] == cs[i];
      if j == |cs| { assert cs[i].name in table; } else { assert cs'[j] == cs[j]; }
    }
    forall i | 0 <= i < |cs'| ensures cs'[i].name in table[c.name := c] {
      if i < |cs| { assert cs'[i] == cs[i]; }
    }
  }

  lemma AddBinding(table: map<Option<string>, Collection>, cs: seq<Collection>, c: Collection, base: nat)
    requires BindingsCreated(table, cs, base) && c == CollectionAt(base + |cs|, c.name)
    ensures BindingsCreated(table[c.name := c], cs + [c], base)
  {
    var table', cs' := table[c.name := c], cs + [c];
    forall h | h in table'
      ensures table'[h].name == h && base <= table'[h].id.index < base + |cs'|
              && cs'[table'[h].id.index - base] == table'[h]
    {
      if h != c.name {
        assert table'[h] == table[h];
        assert cs'[table[h].id.index - base] == cs[table[h].id.index - base];
      }
    }
  }

  lemma StepWellFormed(r: Run, x: Property, base: nat)
    requires WellFormed(r, base)
    ensures WellFormed(Step(r, x, base), base)
  {
    var g := x.1.group;
    if g !in r.table {
      var c := CollectionAt(base + |r.collections|, g);
      assert Step(r, x, base).table == r.table[c.name := c];
      assert Step(r, x, base).collections == r.collections + [c];
      AddNumbered(r.collections, c, base);
      AddDistinct(r.table, r.collections, c);
      AddBinding(r.table, r.collections, c, base);
    }
  }

  /** `r'` continues `r`: no binding is changed or dropped and nothing created is undone. */
  ghost predicate Extends(r: Run, r': Run)
  {
    && (forall g :: g in r.table ==> g in r'.table && r'.table[g] == r.table[g])
    && r.collections <= r'.collections
    && r.variables <= r'.variables
  }

  /** One entry never rebinds or removes a table entry: the table only grows. */
  lemma StepExtends(r: Run, x: Property, base: nat)
    ensures Extends(r, Step(r, x, base))
  {
  }

  lemma GroupSetSnoc(q: seq<Property>, x: Property)
    ensures GroupSet(q + [x]) == GroupSet(q) + {x.1.group}
  {
    var p := q + [x];
    assert forall k :: 0 <= k < |q| ==> p[k] == q[k];
    assert p[|q|] == x;
  }

  /** One entry adds a binding exactly when it adds a collection, and one variable. */
  lemma StepCounts(r: Run, x: Property, base: nat)
    requires |r.collections| == |r.table|
    ensures Step(r, x, base).table.Keys == r.table.Keys + {x.1.group}
    ensures |Step(r, x, base).collections| == |Step(r, x, base).table|
    ensures |Step(r, x, base).variables| == |r.variables| + 1
  {
  }

  /**
   * Every run is well formed, binds exactly the groups of the entries it walked,
   * creates as many collections as it has bindings, and one variable per entry.
   */
  lemma {:induction false} WalkWellFormed(props: seq<Property>, base: nat)
    ensures WellFormed(Walk(props, base), base)
    ensures Walk(props, base).table.Keys == GroupSet(props)
    ensures |Walk(props, base).collections| == |Walk(props, base).table|
    ensures |Walk(props, base).variables| == |props|
  {
    if props != [] {
      var q, x := props[..|props| - 1], props[|props| - 1];
      assert props == q + [x];
      var r := Walk(q, base);
      assert Walk(props, base) == Step(r, x, base);
      WalkWellFormed(q, base);
      StepWellFormed(r, x, base);
      StepCounts(r, x, base);
      GroupSetSnoc(q, x);
    }
  }

  /** A run over a prefix of the entries is continued, never revised, by the full run. */
  lemma {:induction false} WalkExtends(props: seq<Property>, i: nat, base: nat)
    requires i <= |props|
    ensures Extends(Walk(props[..i], base), Walk(props, base))
    decreases |props|
  {
    if i < |props| {
      var q := props[..|props| - 1];
      assert q[..i] == props[..i];
      WalkExtends(q, i, base);
      StepExtends(Walk(q, base), props[|props| - 1], base);
    } else {
      assert props[..i] == props;
    }
  }

  /** The names of a well-formed run's collections are exactly the groups its table binds. */
  lemma NamesAreKeys(r: Run, base: nat)
    requires WellFormed(r, base)
    ensures (set i | 0 <= i < |r.collections| :: r.collections[i].name) == r.table.Keys
  {
    var names := set i | 0 <= i < |r.collections| :: r.collections[i].name;
    forall g | g in r.table ensures g in names {
      var i := r.table[g].id.index - base;
      assert r.collections[i].name == g;
    }
  }

  /**
   * The collections of a run are named exactly after the distinct groups of its
   * entries, one collection per group: as many collections as distinct groups.
   */
  lemma CollectionsAreDistinctGroups(props: seq<Property>, base: nat)
    ensures |Walk(props, base).collections| == |GroupSet(props)|
    ensures (set i | 0 <= i < |Walk(props, base).collections| :: Walk(props, base).collections[i].name)
            == GroupSet(props)
    ensures Distinct(Walk(props, base).collections)
  {
    var r := Walk(props, base);
    WalkWellFormed(props, base);
    NamesAreKeys(r, base);
    assert |r.table| == |r.table.Keys|;
  }

  /** The last entry walked gives the run's last variable, in its group's collection. */
  lemma StepVariable(r: Run, x: Property, base: nat)
    ensures x.1.group in Step(r, x, base).table
    ensures Step(r, x, base).variables == r.variables + [VariableFor(x, Step(r, x, base).table[x.1.group])]
  {
  }

  /** What a continued run inherits: its earlier variables and bindings. */
  lemma ExtendsKeeps(r: Run, r': Run, k: nat, g: Option<string>)
    requires Extends(r, r') && k < |r.variables| && g in r.table
    ensures k < |r'.variables| && r'.variables[k] == r.variables[k]
    ensures g in r'.table && r'.table[g] == r.table[g]
  {
  }

  /**
   * The `k`-th entry's variable is the run's `k`-th variable: named by the entry's
   * key, typed `FLOAT`, in the collection the table holds for the entry's group.
   */
  lemma VariableOfEntry(props: seq<Property>, base: nat, k: nat)
    requires k < |props|
    ensures props[k].1.group in Walk(props, base).table
    ensures |Walk(props, base).variables| == |props|
    ensures Walk(props, base).variables[k] ==
            VariableFor(props[k], Walk(props, base).table[props[k].1.group])
  {
    var g := props[k].1.group;
    var q := props[..k + 1];
    assert q[..k] == props[..k] && q[k] == props[k] && q == props[..k] + [props[k]];
    var r0, r1, r := Walk(props[..k], base), Walk(q, base), Walk(props, base);
    assert r1 == Step(r0, props[k], base);
    WalkWellFormed(props[..k], base);
    WalkWellFormed(props, base);
    StepVariable(r0, props[k], base);
    WalkExtends(props, k + 1, base);
    ExtendsKeeps(r1, r, k, g);
  }

  /** A variable's collection, as bound in a well-formed run, is one the run created. */
  lemma BoundCollection(r: Run, base: nat, g: Option<string>)
    requires WellFormed(r, base) && g in r.table
    ensures base <= r.table[g].id.index < base + |r.collections|
    ensures r.collections[r.table[g].id.index - base] == r.table[g]
    ensures r.table[g].name == g
    ensures r.table[g].defaultModeId == ModeOf(r.table[g].id)
  {
    var i := r.table[g].id.index - base;
    assert r.collections[i] == CollectionAt(base + i, r.collections[i].name);
  }

  /**
   * One variable per entry, in entry order: variable `k` is named by entry `k`'s
   * key and typed `FLOAT`; it belongs to a collection the run created and named
   * after the entry's group; and its only value, for that collection's default
   * mode, is `parseInt` of the entry's `value`.
   */
  lemma EntryVariable(props: seq<Property>, base: nat, k: nat, r: Run)
    requires k < |props| && r == Walk(props, base)
    ensures |r.variables| == |props|
    ensures var v := r.variables[k];
            && v.name == props[k].0
            && v.resolvedType == Float
            && base <= v.collectionId.index < base + |r.collections|
            && r.collections[v.collectionId.index - base].name == props[k].1.group
            && v.valuesByMode ==
               map[r.collections[v.collectionId.index - base].defaultModeId := ParseInt(props[k].1.value)]
  {
    var g := props[k].1.group;
    assert |r.variables| == |props| && g in r.table
           && r.variables[k] == VariableFor(props[k], r.table[g]) by {
      VariableOfEntry(props, base, k);
    }
    var c := r.table[g];
    assert base <= c.id.index < base + |r.collections| && r.collections[c.id.index - base] == c
           && c.name == g by {
      WalkWellFormed(props, base);
      BoundCollection(r, base, g);
    }
  }

  /** In a well-formed run, two groups are bound to the same collection only if they are equal. */
  lemma BindingsInjective(r: Run, base: nat, g: Option<string>, h: Option<string>)
    requires WellFormed(r, base) && g in r.table && h in r.table
    ensures r.table[g].id == r.table[h].id <==> g == h
  {
    BoundCollection(r, base, g);
    BoundCollection(r, base, h);
  }

  /** Two entries' variables share a collection exactly when the entries share a group. */
  lemma SameCollectionIffSameGroup(props: seq<Property>, base: nat, j: nat, k: nat)
    requires j < |props| && k < |props|
    ensures |Walk(props, base).variables| == |props|
    ensures Walk(props, base).variables[j].collectionId == Walk(props, base).variables[k].collectionId
            <==> props[j].1.group == props[k].1.group
  {
    VariableOfEntry(props, base, j);
    VariableOfEntry(props, base, k);
    WalkWellFormed(props, base);
    BindingsInjective(Walk(props, base), base, props[j].1.group, props[k].1.group);
  }

  /**
   * The collection of a group is created lazily, at the group's first entry: walking
   * entry `k` adds one collection exactly when no earlier entry had its group, and
   * none otherwise.
   */
  lemma CollectionCreatedIffNewGroup(props: seq<Property>, base: nat, k: nat)
    requires k < |props|
    ensures var before := |Walk(props[..k], base).collections|;
            var after := |Walk(props[..k + 1], base).collections|;
            && (props[k].1.group !in GroupSet(props[..k]) ==> after == before + 1)
            && (props[k].1.group in GroupSet(props[..k]) ==> after == before)
  {
    var q := props[..k + 1];
    assert q[..k] == props[..k] && q[k] == props[k];
    WalkWellFormed(props[..k], base);
  }

  /** Only the first top-level entry counts: later categories change nothing. */
  lemma FirstEntryOnly(file: TokenFile, rest: TokenFile)
    requires |file| > 0
    ensures CategoryErrors(file + rest) == CategoryErrors(file)
    ensures SizeProperties(file + rest) == SizeProperties(file)
  {
    assert (file + rest)[0] == file[0];
  }

  /** The message names the whitelist, joined by `", "`: here the single category `size`. */
  lemma UnsupportedMessageText()
    ensures UnsupportedCategoryMessage() == "We currently only support the following categories: size"
  {
  }

  /**
   * The error path and the creation path exclude each other: for a non-empty file,
   * exactly one error is reported when the category is not `size`, none when it
   * is, and only a `size` category creates anything.
   */
  lemma ErrorIffNotSize(file: TokenFile, base: nat)
    requires |file| > 0
    ensures CategoryErrors(file) == [UnsupportedCategoryMessage()] <==> file[0].0 != "size"
    ensures CategoryErrors(file) == [] <==> file[0].0 == "size"
    ensures file[0].0 != "size" ==> Walk(SizeProperties(file), base) == Run(map[], [], [])
    ensures file[0].0 == "size" ==> |Walk(SizeProperties(file), base).variables| == |file[0].1|
  {
    WalkWellFormed(file[0].1, base);
  }

  /** A file with no top-level entry reports nothing and creates nothing. */
  lemma EmptyFileDoesNothing(file: TokenFile, base: nat)
    requires |file| == 0
    ensures CategoryErrors(file) == [] && Walk(SizeProperties(file), base) == Run(map[], [], [])
  {
  }

}
