/**
 * FunctionCallVisitor: folds `TYPEOF(Kind.Name)` into the binary literal of
 * the entity's type code. The column reference's parts are right-aligned
 * into the four slots server, database, schema and table, resolved by the
 * scripting service, and the call is replaced in its parent's property by
 * "0x" followed by the type code as eight upper-case hex digits.
 */
module FunctionCallVisitor {
  import opened Wrappers
  import opened Text
  import opened Metadata
  import opened ParseTree
  import opened ScriptingService
  import ColumnReferenceVisitor

  /** The four-slot list GetApplicationObject is given: (4 - count) nulls, then the parts. */
  function Padded(values: seq<string>): (slots: seq<Option<string>>)
    ensures |slots| == if |values| <= 4 then 4 else |values|
    ensures forall k | 0 <= k < |slots| - |values| :: slots[k].None?
    ensures forall k | 0 <= k < |values| :: slots[|slots| - |values| + k] == Some(values[k])
  {
    var pad := if |values| <= 4 then 4 - |values| else 0;
    seq(pad, _ => None) + seq(|values|, k requires 0 <= k < |values| => Some(values[k]))
  }

  /** The two loops of GetApplicationObject(identifiers) that fill the slot list. */
  method PadIdentifiers(ids: seq<Fragment>) returns (slots: seq<Option<string>>)
    ensures slots == Padded(IdentifierValues(ids))
  {
    slots := [];
    var count := |ids|;
    var i := 0;
    while i < 4 - count
      invariant 0 <= i && (count <= 4 ==> i <= 4 - count) && (count > 4 ==> i == 0)
      invariant slots == seq(i, _ => None)
    {
      slots := slots + [None];
      i := i + 1;
    }
    ghost var pad := slots;
    for j := 0 to count
      invariant slots == pad + seq(j, k requires 0 <= k < j => Some(ValueOf(ids[k])))
    {
      slots := slots + [Some(ValueOf(ids[j]))];
    }
    assert slots == Padded(IdentifierValues(ids));
  }

  /** ScriptingService.GetApplicationObject(List) on the padded slots. */
  function Resolution(service: Service, values: seq<string>): Result<Option<ApplicationObject>>
  {
    var slots := Padded(values);
    if |slots| != 4 then Ok(None)
    else match PlanSlots(slots)
      case NoLookup => Ok(None)
      case Lookup(db, rewritten) =>
        if rewritten[3].None? then Throws(NullReference)
        else Ok(GetApplicationObjectByName(service, db, rewritten[3].value))
  }

  /** A name of more than four parts never resolves: the slot list is then longer than four. */
  lemma LongNamesNeverResolve(service: Service, values: seq<string>)
    requires |values| > 4
    ensures Resolution(service, values) == Ok(None)
  {
  }

  /**
   * A name of at most four parts fills the slots from the right: the table
   * slot holds the last part, and the slots before the first part are null.
   * A one-part name has no server, database or schema and is never looked up.
   */
  lemma PaddingRightAligns(values: seq<string>)
    requires 1 <= |values| <= 4
    ensures var slots := Padded(values);
      |slots| == 4 && slots[3] == Some(values[|values| - 1])
      && (forall k | 0 <= k < 4 - |values| :: slots[k].None?)
      && (|values| >= 2 ==> slots[2] == Some(values[|values| - 2]))
    ensures |values| == 1 ==> PlanSlots(Padded(values)).NoLookup?
  {
    var slots := Padded(values);
    assert slots[4 - |values| + (|values| - 1)] == Some(values[|values| - 1]);
    if |values| >= 2 {
      assert slots[4 - |values| + (|values| - 2)] == Some(values[|values| - 2]);
    }
  }

  /** `Kind.Name` resolves "Kind+Name" in the main infobase. */
  lemma KindNameResolves(service: Service, kind: string, name: string)
    requires IsSpecialSchema(Some(kind))
    ensures Resolution(service, [kind, name]) == Ok(GetApplicationObjectByName(service, None, kind + "+" + name))
  {
    var slots := Padded([kind, name]);
    assert slots == [None, None, Some(kind), Some(name)];
    PlanKindName(kind, name);
  }

  /** The guards of Visit: `TYPEOF(column)` with no call target and one Regular column reference. */
  predicate IsTypeOf(node: Fragment)
  {
    node.Kind.FunctionCall? && FieldValue(node, "CallTarget").None?
    && IdentifierText(FieldValue(node, "FunctionName")) == Some("TYPEOF")
    && |ListValue(node, "Parameters")| == 1
    && ListValue(node, "Parameters")[0].Kind == ColumnReferenceExpression(Regular)
  }

  /** The column reference inside `TYPEOF(...)`. */
  function Argument(node: Fragment): Fragment
    requires IsTypeOf(node)
  {
    ListValue(node, "Parameters")[0]
  }

  /**
   * What one visit does: the parent with the call replaced by the type code
   * literal, or the exception thrown. The visitor's own return value is
   * always `result`, which it never changes.
   */
  function Folded(service: Service, node: Fragment, parent: Fragment, sourceProperty: string): (r: Result<Option<Fragment>>)
  {
    if node.Kind.FunctionCall? && FieldValue(node, "CallTarget").None? && FieldValue(node, "FunctionName").None? then
      Throws(NullReference)
    else if !IsTypeOf(node) then Ok(None)
    else
      var column := Argument(node);
      if FieldValue(column, ColumnReferenceVisitor.MultiPartIdentifierProperty).None? then Throws(NullReference)
      else
        match Resolution(service, IdentifierValues(ColumnReferenceVisitor.ColumnIdentifiers(column)))
        case Throws(e) => Throws(e)
        case Ok(None) => Ok(None)
        case Ok(Some(table)) => FoldInto(parent, sourceProperty, node, table.TypeCode)
  }

  /**
   * Visit(node, parent, sourceProperty, result) on the parse tree: returns
   * the parent as rewritten when the call was folded, null when nothing
   * changed, or the exception thrown.
   */
  method Visit(service: Service, node: Fragment, parent: Fragment, sourceProperty: string)
    returns (r: Result<Option<Fragment>>)
    ensures r == Folded(service, node, parent, sourceProperty)
  {
    if !node.Kind.FunctionCall? || FieldValue(node, "CallTarget").Some? {
      return Ok(None);
    }
    var functionName := FieldValue(node, "FunctionName");
    if functionName.None? {
      return Throws(NullReference);
    }
    if IdentifierText(functionName) != Some("TYPEOF") {
      return Ok(None);
    }
    var parameters := ListValue(node, "Parameters");
    if |parameters| != 1 || parameters[0].Kind != ColumnReferenceExpression(Regular) {
      return Ok(None);
    }
    var mpi := FieldValue(parameters[0], ColumnReferenceVisitor.MultiPartIdentifierProperty);
    if mpi.None? {
      return Throws(NullReference);
    }
    var table := GetApplicationObject(service, ColumnReferenceVisitor.ColumnIdentifiers(parameters[0]));
    if table.Throws? {
      return Throws(table.error);
    }
    if table.value.None? {
      return Ok(None);
    }
    r := Transform(parent, sourceProperty, node, table.value.value.TypeCode);
  }

  /** GetApplicationObject(identifiers): the padded slot list handed to the scripting service. */
  method GetApplicationObject(service: Service, ids: seq<Fragment>) returns (r: Result<Option<ApplicationObject>>)
    ensures r == Resolution(service, IdentifierValues(ids))
  {
    var slots := PadIdentifiers(ids);
    var tableIdentifiers := new Option<string>[|slots|](k requires 0 <= k < |slots| => slots[k]);
    assert tableIdentifiers[..] == slots;
    r := ScriptingService.GetApplicationObject(service, tableIdentifiers);
  }

  /** Transform: the call replaced by the type code literal in the parent's property. */
  method Transform(parent: Fragment, sourceProperty: string, functionCall: Fragment, typeCode: int32)
    returns (r: Result<Option<Fragment>>)
    ensures r == FoldInto(parent, sourceProperty, functionCall, typeCode)
  {
    var hexTypeCode := HexLiteral(typeCode);
    var written := SetSlot(parent, sourceProperty, functionCall, ColumnReferenceVisitor.Literal(hexTypeCode));
    if written.Ok? {
      return Ok(Some(written.value));
    }
    return Throws(written.error);
  }

  /** The parent as Transform leaves it: the call replaced by the type code literal. */
  function FoldInto(parent: Fragment, sourceProperty: string, functionCall: Fragment, typeCode: int32): Result<Option<Fragment>>
  {
    match SetSlot(parent, sourceProperty, functionCall, ColumnReferenceVisitor.Literal(HexLiteral(typeCode)))
    case Ok(p) => Ok(Some(p))
    case Throws(e) => Throws(e)
  }

  /** A `TYPEOF` whose argument resolves is folded with that entity's type code. */
  lemma FoldsResolvedTable(service: Service, node: Fragment, parent: Fragment, sourceProperty: string)
    requires IsTypeOf(node) && HasTable(service, node)
    ensures FieldValue(node, "FunctionName").Some?
    ensures Folded(service, node, parent, sourceProperty) == FoldInto(parent, sourceProperty, node, TypeOfTable(service, node).TypeCode)
  {
  }

  /**
   * A folded call leaves in its place a binary literal of "0x" and eight
   * upper-case hex digits that spell the type code (as an unsigned 32-bit
   * value); every other property of the parent stays.
   */
  lemma FoldedLiteral(parent: Fragment, sourceProperty: string, functionCall: Fragment, typeCode: int32)
    ensures |HexLiteral(typeCode)| == 10 && HexLiteral(typeCode)[..2] == "0x"
    ensures forall k | 2 <= k < 10 :: HexLiteral(typeCode)[k] in HexDigits
    ensures HexValue(HexLiteral(typeCode)[2..]) == (typeCode as int) % 0x1_0000_0000
    ensures var literal := ColumnReferenceVisitor.Literal(HexLiteral(typeCode));
      (FoldInto(parent, sourceProperty, functionCall, typeCode).Ok? <==>
       SetSlot(parent, sourceProperty, functionCall, literal).Ok?)
    ensures var literal := ColumnReferenceVisitor.Literal(HexLiteral(typeCode));
      var r := FoldInto(parent, sourceProperty, functionCall, typeCode);
      r.Ok? ==>
        (r.value.Some? && Holds(r.value.value, sourceProperty, literal)
         && r.value.value.Kind == parent.Kind && |r.value.value.Slots| == |parent.Slots|
         && forall j | 0 <= j < |parent.Slots| && j != SlotIndex(parent.Slots, sourceProperty) ::
              r.value.value.Slots[j] == parent.Slots[j])
  {
    HexLiteralShape(typeCode);
    SetSlotPlaces(parent, sourceProperty, functionCall, ColumnReferenceVisitor.Literal(HexLiteral(typeCode)));
  }

  /** The argument of `TYPEOF` resolves to an entity. */
  predicate HasTable(service: Service, node: Fragment)
    requires IsTypeOf(node)
  {
    var column := Argument(node);
    FieldValue(column, ColumnReferenceVisitor.MultiPartIdentifierProperty).Some?
    && var r := Resolution(service, IdentifierValues(ColumnReferenceVisitor.ColumnIdentifiers(column)));
    r.Ok? && r.value.Some?
  }

  /** The entity the argument of `TYPEOF` resolves to. */
  function TypeOfTable(service: Service, node: Fragment): ApplicationObject
    requires IsTypeOf(node) && HasTable(service, node)
  {
    Resolution(service, IdentifierValues(ColumnReferenceVisitor.ColumnIdentifiers(Argument(node)))).value.value
  }

  /** Anything but `TYPEOF(column)` without a call target, and an unresolved argument, leave the tree alone. */
  lemma NotFoldedUnchanged(service: Service, node: Fragment, parent: Fragment, sourceProperty: string)
    ensures !node.Kind.FunctionCall? || FieldValue(node, "CallTarget").Some? ==>
      Folded(service, node, parent, sourceProperty) == Ok(None)
    ensures FieldValue(node, "FunctionName").Some? && !IsTypeOf(node) ==>
      Folded(service, node, parent, sourceProperty) == Ok(None)
    ensures (IsTypeOf(node) && FieldValue(Argument(node), ColumnReferenceVisitor.MultiPartIdentifierProperty).Some?
      && |ColumnReferenceVisitor.ColumnIdentifiers(Argument(node))| > 4) ==>
      Folded(service, node, parent, sourceProperty) == Ok(None)
  {
    if IsTypeOf(node) && FieldValue(Argument(node), ColumnReferenceVisitor.MultiPartIdentifierProperty).Some? {
      var values := IdentifierValues(ColumnReferenceVisitor.ColumnIdentifiers(Argument(node)));
      if |values| > 4 {
        LongNamesNeverResolve(service, values);
      }
    }
  }
}
