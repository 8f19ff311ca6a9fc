/**
 * The handler's table `collections` is a plain JavaScript object `{}`, and it asks
 * `collections[value.group] === undefined` to decide whether a group still needs a
 * collection. A property read on a plain object also finds the members every
 * object inherits from `Object.prototype`, so for a group named like one of them
 * the read is not `undefined` although no collection was ever stored under it.
 * This module models that read as written and relates it to `TokenSpec.Step`,
 * whose own-key test is the behaviour the source evidently intends.
 */
module ObjectLookup {
  import opened Wrappers
  import opened FigmaHost
  import opened TokenSpec
  import opened TokenFacts

  /**
   * The names `Object.prototype` provides to every plain object (section 20.1.3
   * of ECMA-262, together with the legacy accessors of its Annex B.2.2).
   */
  const PrototypeMembers: set<string> := {
    "constructor", "hasOwnProperty", "isPrototypeOf", "propertyIsEnumerable",
    "toLocaleString", "toString", "valueOf", "__proto__",
    "__defineGetter__", "__defineSetter__", "__lookupGetter__", "__lookupSetter__"
  }

  /** The property key a group becomes when it indexes an object: `undefined` reads as `"undefined"`. */
  function PropertyKey(g: Option<string>): string
  {
    match g
    case None => "undefined"
    case Some(s) => s
  }

  /** What reading `collections[group]` yields. */
  datatype Lookup = Stored(c: Collection) | InheritedMember(key: string) | Undefined

  /** `collections[g]` on the plain-object table, as JavaScript evaluates it. */
  function PropertyGet(table: map<Option<string>, Collection>, g: Option<string>): Lookup
  {
    if g in table then Stored(table[g])
    else if PropertyKey(g) in PrototypeMembers then InheritedMember(PropertyKey(g))
    else Undefined
  }

  /**
   * One pass of the loop body as written: a collection is created only when the
   * read is `undefined`, and the variable is then created in `collections[group].id`.
   * When the read found an inherited member that id is `undefined`, and the host
   * is asked for a variable in collection `undefined`; what the host then does is
   * not modelled, so the model does not follow the run past that request: `None`.
   */
  function StepAsWritten(r: Run, x: Property, base: nat): (r': Option<Run>)
    ensures r'.Some? <==> (x.1.group in r.table || PropertyKey(x.1.group) !in PrototypeMembers)
    ensures r'.Some? ==> r'.value == Step(r, x, base)
  {
    var g := x.1.group;
    var r1 :=
      if PropertyGet(r.table, g).Undefined? then
        var c := CollectionAt(base + |r.collections|, g);
        r.(table := r.table[g := c], collections := r.collections + [c])
      else r;
    match PropertyGet(r1.table, g)
    case Stored(c) => Some(r1.(variables := r1.variables + [VariableFor(x, c)]))
    case InheritedMember(_) => None
    case Undefined => None
  }

  /**
   * The discrepancy: on a fresh table, an entry whose group is `"constructor"`
   * gets no collection as written, while the intended step creates one named
   * after the group and puts the variable in it.
   */
  lemma ConstructorGroupAsWritten()
    ensures StepAsWritten(Run(map[], [], []), ("gap", Token("4", Some("constructor"))), 0).None?
    ensures Step(Run(map[], [], []), ("gap", Token("4", Some("constructor"))), 0).collections
            == [CollectionAt(0, Some("constructor"))]
  {
    assert "constructor" in PrototypeMembers;
  }

  /**
   * On the table `Walk` builds, reading `collections[g]` finds the group's collection
   * exactly when some entry had the group, and is `undefined` exactly when none had
   * it and its key is not inherited from `Object.prototype`. For the loop as written
   * this holds after entries with no inherited-key group, which is as far as it gets
   * (`WalkAsWrittenIffNoInheritedKey`).
   */
  lemma LookupAfterWalk(props: seq<Property>, base: nat, g: Option<string>)
    ensures PropertyGet(Walk(props, base).table, g).Stored? <==> g in GroupSet(props)
    ensures PropertyGet(Walk(props, base).table, g).Undefined?
            <==> g !in GroupSet(props) && PropertyKey(g) !in PrototypeMembers
  {
    WalkWellFormed(props, base);
  }

  /** The loop over `props` as written; `None` once a pass stops as `StepAsWritten` says. */
  function WalkAsWritten(props: seq<Property>, base: nat): Option<Run>
  {
    if props == [] then Some(Run(map[], [], []))
    else
      match WalkAsWritten(props[..|props| - 1], base)
      case None => None
      case Some(r) => StepAsWritten(r, props[|props| - 1], base)
  }

  /** No entry's group is keyed like a member inherited from `Object.prototype`. */
  ghost predicate NoInheritedKey(props: seq<Property>)
  {
    forall k :: 0 <= k < |props| ==> PropertyKey(props[k].1.group) !in PrototypeMembers
  }

  /** A group already seen among entries without inherited keys has no inherited key. */
  lemma SeenGroupNotInherited(q: seq<Property>, g: Option<string>)
    requires NoInheritedKey(q) && g in GroupSet(q)
    ensures PropertyKey(g) !in PrototypeMembers
  {
    var k :| 0 <= k < |q| && q[k].1.group == g;
  }

  /** After a clean prefix, one more pass as written succeeds iff its key is not inherited. */
  lemma StepAsWrittenAfterWalk(q: seq<Property>, x: Property, base: nat)
    requires NoInheritedKey(q)
    ensures StepAsWritten(Walk(q, base), x, base).Some? <==> PropertyKey(x.1.group) !in PrototypeMembers
    ensures StepAsWritten(Walk(q, base), x, base).Some? ==>
            StepAsWritten(Walk(q, base), x, base).value == Walk(q + [x], base)
  {
    WalkWellFormed(q, base);
    if x.1.group in GroupSet(q) {
      SeenGroupNotInherited(q, x.1.group);
    }
    WalkSnoc(q, x, base);
  }

  /** Running the loop as written over one more entry is one more pass, if it got that far. */
  lemma WalkAsWrittenSnoc(q: seq<Property>, x: Property, base: nat)
    ensures WalkAsWritten(q + [x], base) ==
            if WalkAsWritten(q, base).None? then None else StepAsWritten(WalkAsWritten(q, base).value, x, base)
  {
    assert (q + [x])[..|q|] == q;
  }

  lemma NoInheritedKeySnoc(q: seq<Property>, x: Property)
    ensures NoInheritedKey(q + [x]) <==> NoInheritedKey(q) && PropertyKey(x.1.group) !in PrototypeMembers
  {
    var p := q + [x];
    assert forall k :: 0 <= k < |q| ==> p[k] == q[k];
    assert p[|q|] == x;
  }

  /**
   * The loop as written does what the own-key model `Walk` does exactly when no
   * entry's group is keyed like an inherited member; otherwise it does not get past
   * the first such entry.
   */
  lemma {:induction false} WalkAsWrittenIffNoInheritedKey(props: seq<Property>, base: nat)
    ensures NoInheritedKey(props) ==> WalkAsWritten(props, base) == Some(Walk(props, base))
    ensures !NoInheritedKey(props) ==> WalkAsWritten(props, base).None?
  {
    if props != [] {
      var q, x := props[..|props| - 1], props[|props| - 1];
      assert props == q + [x];
      WalkAsWrittenIffNoInheritedKey(q, base);
      WalkAsWrittenSnoc(q, x, base);
      NoInheritedKeySnoc(q, x);
      if NoInheritedKey(q) {
        StepAsWrittenAfterWalk(q, x, base);
      }
    }
  }
}
