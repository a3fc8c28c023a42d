/**
 * The partial equality selector RemoveFilteredPolicy sends to the store: the policy type
 * always, and each value position covered by the given values, except where the value is
 * empty (a wildcard).
 */
module Selector {
  import opened Base
  import opened Rules

  /** A selector document: field name to the value that field must equal. */
  type Selector = map<string, string>

  const PTypeKey := "ptype"

  /** The document field name of value position i. */
  function FieldKey(i: nat): (key: string)
    requires i < FieldCount
    ensures key != PTypeKey
  {
    ["v0", "v1", "v2", "v3", "v4", "v5"][i]
  }

  /** The value a document holds under a field name, if it has such a field. */
  function Field(r: CasbinRule, key: string): (v: Option<string>)
    ensures key == PTypeKey ==> v == Some(r.ptype)
    ensures forall i :: 0 <= i < FieldCount && key == FieldKey(i) ==> v == Some(Values(r)[i])
  {
    if key == PTypeKey then Some(r.ptype)
    else if key == "v0" then Some(r.v0)
    else if key == "v1" then Some(r.v1)
    else if key == "v2" then Some(r.v2)
    else if key == "v3" then Some(r.v3)
    else if key == "v4" then Some(r.v4)
    else if key == "v5" then Some(r.v5)
    else None
  }

  /** A document matches a selector when it holds every selected value. */
  predicate Matches(sel: Selector, r: CasbinRule)
  {
    forall key :: key in sel ==> Field(r, key) == Some(sel[key])
  }

  /** Whether the values starting at position fieldIndex put a (non-wildcard) constraint on position i. */
  predicate Constrains(fieldIndex: int, fieldValues: seq<string>, i: int)
  {
    fieldIndex <= i < fieldIndex + |fieldValues| && fieldValues[i - fieldIndex] != ""
  }

  /** Every field name a selector may use. */
  const AllKeys: set<string> := {PTypeKey, "v0", "v1", "v2", "v3", "v4", "v5"}

  /** sel is the selector for (ptype, fieldIndex, fieldValues) restricted to value positions below n. */
  predicate SelectsBelow(sel: Selector, ptype: string, fieldIndex: int, fieldValues: seq<string>, n: nat)
  {
    && sel.Keys <= AllKeys
    && PTypeKey in sel && sel[PTypeKey] == ptype
    && (forall i :: 0 <= i < FieldCount ==> (FieldKey(i) in sel <==> i < n && Constrains(fieldIndex, fieldValues, i)))
    && (forall i :: 0 <= i < n && i < FieldCount && Constrains(fieldIndex, fieldValues, i) ==>
          sel[FieldKey(i)] == fieldValues[i - fieldIndex])
  }

  /** One step of the selector construction: the constraint, if any, on value position i. */
  function ConstrainPosition(sel: Selector, ptype: string, i: nat, fieldIndex: int, fieldValues: seq<string>): (sel': Selector)
    requires i < FieldCount
    requires SelectsBelow(sel, ptype, fieldIndex, fieldValues, i)
    ensures SelectsBelow(sel', ptype, fieldIndex, fieldValues, i + 1)
  {
    if fieldIndex <= i && i < fieldIndex + |fieldValues| then
      // i - fieldIndex is within the values exactly because of the guard above
      if fieldValues[i - fieldIndex] != "" then sel[FieldKey(i) := fieldValues[i - fieldIndex]] else sel
    else
      sel
  }

  /**
   * The selector of RemoveFilteredPolicy(ptype, fieldIndex, fieldValues...): it always fixes the
   * type, fixes position i exactly when a non-empty value lies at offset i - fieldIndex, and
   * never names a field other than ptype and v0..v5.
   */
  function BuildSelector(ptype: string, fieldIndex: int, fieldValues: seq<string>): (sel: Selector)
    ensures PTypeKey in sel && sel[PTypeKey] == ptype
    ensures forall i :: 0 <= i < FieldCount ==> (FieldKey(i) in sel <==> Constrains(fieldIndex, fieldValues, i))
    ensures forall i :: 0 <= i < FieldCount && Constrains(fieldIndex, fieldValues, i) ==>
              sel[FieldKey(i)] == fieldValues[i - fieldIndex]
    ensures sel.Keys <= AllKeys
  {
    var s0 := map[PTypeKey := ptype];
    var s1 := ConstrainPosition(s0, ptype, 0, fieldIndex, fieldValues);
    var s2 := ConstrainPosition(s1, ptype, 1, fieldIndex, fieldValues);
    var s3 := ConstrainPosition(s2, ptype, 2, fieldIndex, fieldValues);
    var s4 := ConstrainPosition(s3, ptype, 3, fieldIndex, fieldValues);
    var s5 := ConstrainPosition(s4, ptype, 4, fieldIndex, fieldValues);
    ConstrainPosition(s5, ptype, 5, fieldIndex, fieldValues)
  }

  /**
   * What deletion by the selector means for one document: it is selected exactly when it has
   * the type and holds, at every constrained position, the value given for that position.
   */
  lemma MatchesSelectorIff(ptype: string, fieldIndex: int, fieldValues: seq<string>, r: CasbinRule)
    ensures Matches(BuildSelector(ptype, fieldIndex, fieldValues), r) <==>
      r.ptype == ptype &&
      forall i :: 0 <= i < FieldCount && Constrains(fieldIndex, fieldValues, i) ==>
        Values(r)[i] == fieldValues[i - fieldIndex]
  {
    var sel := BuildSelector(ptype, fieldIndex, fieldValues);
    if r.ptype == ptype &&
       forall i :: 0 <= i < FieldCount && Constrains(fieldIndex, fieldValues, i) ==>
         Values(r)[i] == fieldValues[i - fieldIndex]
    {
      forall key | key in sel
        ensures Field(r, key) == Some(sel[key])
      {
        if key != PTypeKey {
          var i :| 0 <= i < FieldCount && key == FieldKey(i) by {
            assert key in AllKeys;
            if key == "v0" { assert key == FieldKey(0); }
            else if key == "v1" { assert key == FieldKey(1); }
            else if key == "v2" { assert key == FieldKey(2); }
            else if key == "v3" { assert key == FieldKey(3); }
            else if key == "v4" { assert key == FieldKey(4); }
            else { assert key == FieldKey(5); }
          }
          assert Constrains(fieldIndex, fieldValues, i);
        }
      }
    }
    if Matches(sel, r) {
      assert Field(r, PTypeKey) == Some(sel[PTypeKey]);
      forall i | 0 <= i < FieldCount && Constrains(fieldIndex, fieldValues, i)
        ensures Values(r)[i] == fieldValues[i - fieldIndex]
      {
        assert Field(r, FieldKey(i)) == Some(sel[FieldKey(i)]);
      }
    }
  }

  /** A single value at offset 0 constrains only the type and v0. */
  lemma FirstFieldSelector(ptype: string, value: string)
    requires value != ""
    ensures BuildSelector(ptype, 0, [value]) == map[PTypeKey := ptype, FieldKey(0) := value]
  {
    var sel := BuildSelector(ptype, 0, [value]);
    forall i | 1 <= i < FieldCount ensures FieldKey(i) !in sel {
      assert !Constrains(0, [value], i);
    }
    assert sel.Keys == {PTypeKey, FieldKey(0)};
  }

  /** Empty values are wildcards: ("domain1", "", "", "read") at offset 0 constrains v0 and v3 only. */
  lemma WildcardSelector(ptype: string)
    ensures BuildSelector(ptype, 0, ["domain1", "", "", "read"])
         == map[PTypeKey := ptype, FieldKey(0) := "domain1", FieldKey(3) := "read"]
  {
    var fv := ["domain1", "", "", "read"];
    var sel := BuildSelector(ptype, 0, fv);
    assert Constrains(0, fv, 0) && Constrains(0, fv, 3);
    assert !Constrains(0, fv, 1) && !Constrains(0, fv, 2) && !Constrains(0, fv, 4) && !Constrains(0, fv, 5);
    assert sel.Keys == {PTypeKey, FieldKey(0), FieldKey(3)};
  }

  /** A negative offset shifts the values left: the value at offset -fieldIndex lands on v0. */
  lemma NegativeOffsetSelector(ptype: string, a: string, b: string)
    requires a != "" && b != ""
    ensures BuildSelector(ptype, -1, [a, b]) == map[PTypeKey := ptype, FieldKey(0) := b]
  {
    var sel := BuildSelector(ptype, -1, [a, b]);
    assert Constrains(-1, [a, b], 0);
    forall i | 1 <= i < FieldCount ensures FieldKey(i) !in sel {
      assert !Constrains(-1, [a, b], i);
    }
    assert sel.Keys == {PTypeKey, FieldKey(0)};
  }
}
