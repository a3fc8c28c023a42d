/**
 * The scenarios of the adapter's tests, stated over the model: the RBAC data set, filtered
 * deletion with wildcards, the update that keeps the identifier, and the filtered-adapter flow.
 */
module Scenarios {
  import opened Base
  import opened Rules
  import opened Selector
  import opened Store
  import opened Connection
  import opened MongoAdapter

  function Doc(id: ObjectId, ptype: string, v0: string, v1: string, v2: string): CasbinRule
  {
    CasbinRule(Some(id), ptype, v0, v1, v2, "", "", "")
  }

  /** The role the RBAC data grants data2 access through. */
  const DataAdmin := "data2_admin"

  /** The RBAC data set, as stored under identifiers 0 to 4. */
  function RbacStore(): Collection
  {
    [ Doc(0, "p", "alice", "data1", "read"),
      Doc(1, "p", "bob", "data2", "write"),
      Doc(2, "p", DataAdmin, "data2", "read"),
      Doc(3, "p", DataAdmin, "data2", "write"),
      Doc(4, "g", "alice", DataAdmin, "") ]
  }

  /** A stored document with three values, the last non-empty, loads as its type and those values. */
  lemma LoadDoc(id: ObjectId, ptype: string, v0: string, v1: string, v2: string)
    requires v2 != ""
    ensures LoadPolicyLine(Doc(id, ptype, v0, v1, v2)) == [ptype, v0, v1, v2]
  {
    var t := LoadPolicyLine(Doc(id, ptype, v0, v1, v2));
    assert Values(Doc(id, ptype, v0, v1, v2)) == [v0, v1, v2, "", "", ""];
    assert |t| == 4;
    assert t == [t[0]] + t[1..];
  }

  /** A stored document with two values, the last non-empty, loads as its type and those two values. */
  lemma LoadDocPair(id: ObjectId, ptype: string, v0: string, v1: string)
    requires v1 != ""
    ensures LoadPolicyLine(Doc(id, ptype, v0, v1, "")) == [ptype, v0, v1]
  {
    var t := LoadPolicyLine(Doc(id, ptype, v0, v1, ""));
    assert Values(Doc(id, ptype, v0, v1, "")) == [v0, v1, "", "", "", ""];
    assert |t| == 3;
    assert t == [t[0]] + t[1..];
  }

  /** Loading everything yields the four "p" lines and the one "g" line, in store order. */
  lemma LoadRbac()
    ensures LoadedLines(RbacStore(), None) ==
      [ ["p", "alice", "data1", "read"], ["p", "bob", "data2", "write"],
        ["p", "data2_admin", "data2", "read"], ["p", "data2_admin", "data2", "write"],
        ["g", "alice", "data2_admin"] ]
  {
    var c := RbacStore();
    LoadDoc(0, "p", "alice", "data1", "read");
    LoadDoc(1, "p", "bob", "data2", "write");
    LoadDoc(2, "p", DataAdmin, "data2", "read");
    LoadDoc(3, "p", DataAdmin, "data2", "write");
    LoadDocPair(4, "g", "alice", DataAdmin);
    assert LoadedLines(c[..1], None) == [LoadPolicyLine(c[0])] by {
      assert c[..1][..0] == [];
    }
    assert c[..2][..1] == c[..1] && c[..3][..2] == c[..2] && c[..4][..3] == c[..3] && c[..5][..4] == c[..4];
    assert LoadedLines(c[..2], None) == LoadedLines(c[..1], None) + [LoadPolicyLine(c[1])];
    assert LoadedLines(c[..3], None) == LoadedLines(c[..2], None) + [LoadPolicyLine(c[2])];
    assert LoadedLines(c[..4], None) == LoadedLines(c[..3], None) + [LoadPolicyLine(c[3])];
    assert c[..5] == c;
    assert LoadedLines(c, None) == LoadedLines(c[..4], None) + [LoadPolicyLine(c[4])];
  }

  /** The selector of a single value at offset 0 picks the documents with that type and that v0. */
  lemma MatchesFirstField(ptype: string, value: string, r: CasbinRule)
    requires value != ""
    ensures Matches(BuildSelector(ptype, 0, [value]), r) <==> r.ptype == ptype && r.v0 == value
  {
    FirstFieldSelector(ptype, value);
    var sel := BuildSelector(ptype, 0, [value]);
    if Matches(sel, r) {
      assert Field(r, PTypeKey) == Some(sel[PTypeKey]);
      assert Field(r, FieldKey(0)) == Some(sel[FieldKey(0)]);
    }
  }

  /**
   * RemoveFilteredPolicy("p", 0, DataAdmin) on the RBAC data: the selector picks documents 2 and
   * 3 and no other. The role is a parameter equal to DataAdmin rather than the constant itself,
   * so that the verifier reasons about the selector through its contract instead of evaluating
   * it on literal arguments, which is far more expensive.
   */
  lemma DataAdminSelection(role: string)
    requires role == DataAdmin
    ensures forall i :: 0 <= i < |RbacStore()| ==>
      (Matches(BuildSelector("p", 0, [role]), RbacStore()[i]) <==> i == 2 || i == 3)
  {
    var c := RbacStore();
    MatchesFirstField("p", role, c[0]);
    MatchesFirstField("p", role, c[1]);
    MatchesFirstField("p", role, c[2]);
    MatchesFirstField("p", role, c[3]);
    MatchesFirstField("p", role, c[4]);
  }

  /** A deletion that selects documents 2 and 3 of five distinct ones keeps exactly documents 0, 1 and 4. */
  lemma DeleteMiddlePair(c: Collection, sel: Selector)
    requires |c| == 5 && IdsDistinct(c)
    requires forall i :: 0 <= i < |c| ==> (Matches(sel, c[i]) <==> i == 2 || i == 3)
    ensures forall x :: x in DeleteMany(c, sel) <==> x == c[0] || x == c[1] || x == c[4]
  {
    forall x
      ensures x in DeleteMany(c, sel) <==> x == c[0] || x == c[1] || x == c[4]
    {
      if x in c {
        var i :| 0 <= i < |c| && c[i] == x;
        assert Matches(sel, x) <==> i == 2 || i == 3;
      }
    }
  }

  /** So RemoveFilteredPolicy("p", 0, DataAdmin) leaves the first two "p" rules and the "g" rule. */
  lemma RemoveDataAdminRules(role: string)
    requires role == DataAdmin
    ensures forall x :: x in DeleteMany(RbacStore(), BuildSelector("p", 0, [role])) <==>
      x == RbacStore()[0] || x == RbacStore()[1] || x == RbacStore()[4]
  {
    DataAdminSelection(role);
    DeleteMiddlePair(RbacStore(), BuildSelector("p", 0, [role]));
  }

  /** UpdatePolicy(["alice", "data1", "read"] to ["alice", "data1", "write"]) rewrites document 0 only, keeping its identifier. */
  lemma UpdateAliceRule()
    ensures UpdateOne(RbacStore(), SavePolicyLine("p", ["alice", "data1", "read"]),
                      SavePolicyLine("p", ["alice", "data1", "write"]), true)
         == Success(RbacStore()[0 := Doc(0, "p", "alice", "data1", "write")])
  {
    var c := RbacStore();
    var filter := SavePolicyLine("p", ["alice", "data1", "read"]);
    var update := SavePolicyLine("p", ["alice", "data1", "write"]);
    assert Unkeyed(c[0]) == filter;
    assert FindFirst(c, filter) == Some(0);
    assert !UpdateCollides(c, 0, update) by {
      assert update.v0 == "alice" && update.v2 == "write";
      forall j | 0 <= j < |c| && j != 0 ensures Unkeyed(c[j]) != update {
        assert c[j].v0 != "alice" || c[j].ptype != "p";
      }
    }
  }

  /**
   * The filtered-adapter flow: after a filtered load SavePolicy is refused and the store is
   * untouched; after an unfiltered load it succeeds.
   */
  method FilteredFlow(a: Adapter, bobOnly: CasbinRule -> bool, model: PolicyModel)
    returns (refused: Option<AdapterError>, saved: Option<AdapterError>)
    requires a.Valid()
    modifies a
    ensures refused == Some(FilteredSave) && saved == None
    ensures !a.filtered
  {
    var lines := a.LoadFilteredPolicy(Some(bobOnly));
    var f := a.IsFiltered();
    assert f;
    ghost var stored := a.collection;
    refused := a.SavePolicy(model);
    assert a.collection == stored;
    lines := a.LoadPolicy();
    f := a.IsFiltered();
    assert !f;
    saved := a.SavePolicy(model);
  }

  /**
   * AddPolicy then RemovePolicy with the same arguments: with the unique index a successful add
   * is undone exactly; in any case the store ends up holding the same fields as before.
   */
  method AddThenRemove(a: Adapter, sec: string, ptype: string, rule: seq<string>)
    returns (addErr: Option<AdapterError>)
    requires a.Valid()
    modifies a
    ensures a.Valid()
    ensures a.uniqueIndex && addErr == None ==> a.collection == old(a.collection)
    ensures addErr == None ==> multiset(UnkeyedAll(a.collection)) == multiset(UnkeyedAll(old(a.collection)))
  {
    ghost var before := a.collection;
    ghost var line := SavePolicyLine(ptype, rule);
    ghost var id := a.nextId;
    addErr := a.AddPolicy(sec, ptype, rule);
    var removeErr := a.RemovePolicy(sec, ptype, rule);
    if addErr == None {
      assert InsertOne(before, line, id, a.uniqueIndex) == Success(before + [line.(id := Some(id))]);
      AddThenRemoveKeepsFields(before, line, id, a.uniqueIndex);
      if a.uniqueIndex {
        AddThenRemoveRestores(before, line, id);
      }
    }
  }

  /**
   * An updatable adapter built from a URL that parses, over a store the index accepts, is built,
   * and its UpdatePolicy is not refused as non-updatable: its outcome is the store's UpdateOne.
   */
  method UpdatableFlow(url: string, parsePath: string -> Option<string>, existing: seq<CasbinRule>,
                       oldRule: seq<string>, newRule: seq<string>)
    returns (a: Adapter?, updateErr: Option<AdapterError>)
    requires parsePath(NormalizeUrl(url)).Some? && KeysDistinct(existing)
    ensures a != null && a.updatable
    ensures updateErr != Some(NotUpdatable)
  {
    var err;
    a, err := NewUpdatableAdapter(url, [], parsePath, existing);
    updateErr := a.UpdatePolicy("ignored", "p", oldRule, newRule);
  }
}
