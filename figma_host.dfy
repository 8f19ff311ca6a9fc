/**
 * An in-memory stand-in for the part of the host's `figma.variables` API that the
 * import handler calls, and for the `REPORT_ERROR` channel back to the UI. The fake
 * numbers collections and variables in creation order and gives each collection a
 * single default mode.
 */
module FigmaHost {
  import opened Wrappers

  datatype CollectionId = CollectionId(index: nat)
  datatype ModeId = ModeId(index: nat)
  datatype VariableId = VariableId(index: nat)

  /** `VariableResolvedDataType`: the handler only ever asks for `FLOAT`. */
  datatype VariableType = Boolean | Float | String | Color

  /** A variable collection handle: its id, its name, and the id of its default mode. */
  datatype Collection = Collection(id: CollectionId, name: Option<string>, defaultModeId: ModeId)

  /**
   * A variable: its name, the collection it belongs to, its type, and its value per
   * mode. A FLOAT value is a number; `None` records a NaN handed to the host.
   */
  datatype Variable = Variable(
    name: string,
    collectionId: CollectionId,
    resolvedType: VariableType,
    valuesByMode: map<ModeId, Option<int>>)

  /** The fake host gives collection `i` the mode `i` as its one and default mode. */
  function ModeOf(id: CollectionId): ModeId {
    ModeId(id.index)
  }

  class Host {
    /** Every collection created so far, in creation order. */
    var collections: seq<Collection>
    /** Every variable created so far, in creation order. */
    var variables: seq<Variable>
    /** Every message sent on `REPORT_ERROR`, in order. */
    var errors: seq<string>

    /**
     * Collection `i` has id `i` and mode `i`; every variable belongs to an existing
     * collection and holds values only for that collection's mode.
     */
    ghost predicate Valid()
      reads this
    {
      && (forall i :: 0 <= i < |collections| ==>
            collections[i].id == CollectionId(i) && collections[i].defaultModeId == ModeOf(CollectionId(i)))
      && (forall j :: 0 <= j < |variables| ==>
            variables[j].collectionId.index < |collections|
            && variables[j].valuesByMode.Keys <= {ModeOf(variables[j].collectionId)})
    }

    constructor ()
      ensures Valid()
      ensures collections == [] && variables == [] && errors == []
    {
      collections, variables, errors := [], [], [];
    }

    /** `figma.variables.createVariableCollection(name)`. */
    method CreateVariableCollection(name: Option<string>) returns (c: Collection)
      requires Valid()
      modifies this
      ensures Valid()
      ensures c == Collection(CollectionId(|old(collections)|), name, ModeId(|old(collections)|))
      ensures collections == old(collections) + [c]
      ensures variables == old(variables) && errors == old(errors)
    {
      c := Collection(CollectionId(|collections|), name, ModeOf(CollectionId(|collections|)));
      collections := collections + [c];
    }

    /** `figma.variables.createVariable(name, collectionId, resolvedType)`: no values yet. */
    method CreateVariable(name: string, collectionId: CollectionId, resolvedType: VariableType)
      returns (v: VariableId)
      requires Valid()
      requires collectionId.index < |collections|
      modifies this
      ensures Valid()
      ensures v == VariableId(|old(variables)|)
      ensures variables == old(variables) + [Variable(name, collectionId, resolvedType, map[])]
      ensures collections == old(collections) && errors == old(errors)
    {
      v := VariableId(|variables|);
      variables := variables + [Variable(name, collectionId, resolvedType, map[])];
    }

    /** `variable.setValueForMode(modeId, value)`, for a mode of the variable's collection. */
    method SetValueForMode(v: VariableId, modeId: ModeId, value: Option<int>)
      requires Valid()
      requires v.index < |variables|
      requires modeId == ModeOf(variables[v.index].collectionId)
      modifies this
      ensures Valid()
      ensures variables == old(variables)[v.index :=
        old(variables)[v.index].(valuesByMode := old(variables)[v.index].valuesByMode[modeId := value])]
      ensures collections == old(collections) && errors == old(errors)
    {
      var x := variables[v.index];
      variables := variables[v.index := x.(valuesByMode := x.valuesByMode[modeId := value])];
    }

    /** `emit('REPORT_ERROR', message)`. */
    method ReportError(message: string)
      modifies this
      ensures errors == old(errors) + [message]
      ensures collections == old(collections) && variables == old(variables)
    {
      errors := errors + [message];
    }
  }
}
