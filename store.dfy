/**
 * The `casbin_rule` collection, abstracted to a sequence of documents in natural (insertion)
 * order, and the store operations the adapter issues against it: insert one, insert many,
 * delete one, delete many, update one, find.
 */
module Store {
  import opened Base
  import opened Rules
  import opened Selector

  type Collection = seq<CasbinRule>

  /** Every document has an identifier, and every identifier is below `next`. */
  predicate IdsBelow(c: Collection, next: ObjectId)
  {
    forall r :: r in c ==> r.id.Some? && r.id.value < next
  }

  /** No two documents share an identifier. */
  predicate IdsDistinct(c: Collection)
  {
    forall i, j :: 0 <= i < j < |c| ==> c[i].id != c[j].id
  }

  /** No two documents share (ptype, v0..v5): what the unique index enforces. */
  predicate KeysDistinct(c: Collection)
  {
    forall i, j :: 0 <= i < j < |c| ==> Unkeyed(c[i]) != Unkeyed(c[j])
  }

  /** The store's invariant; `indexed` says whether the unique index currently exists. */
  predicate WellFormed(c: Collection, next: ObjectId, indexed: bool)
  {
    IdsBelow(c, next) && IdsDistinct(c) && (indexed ==> KeysDistinct(c))
  }

  /** The seven indexed fields of every document, in order. */
  function UnkeyedAll(c: Collection): (u: seq<CasbinRule>)
    ensures |u| == |c|
    ensures forall i :: 0 <= i < |c| ==> u[i] == Unkeyed(c[i])
  {
    if c == [] then [] else [Unkeyed(c[0])] + UnkeyedAll(c[1..])
  }

  /** Whether some document has exactly the seven fields of `line`. */
  predicate Contains(c: Collection, line: CasbinRule)
  {
    exists j :: 0 <= j < |c| && Unkeyed(c[j]) == line
  }

  /** The position of the first document whose seven fields equal `line`, if any. */
  function FindFirst(c: Collection, line: CasbinRule): (r: Option<nat>)
    ensures r.None? <==> !Contains(c, line)
    ensures r.Some? ==> r.value < |c| && Unkeyed(c[r.value]) == line
    ensures r.Some? ==> forall j :: 0 <= j < r.value ==> Unkeyed(c[j]) != line
  {
    if c == [] then None
    else if Unkeyed(c[0]) == line then Some(0)
    else match FindFirst(c[1..], line)
      case None => None
      case Some(k) => Some(k + 1)
  }

  /**
   * InsertOne: append `line` under a fresh identifier; with the unique index present, a
   * document with the same seven fields makes the store refuse and change nothing.
   */
  function InsertOne(c: Collection, line: CasbinRule, id: ObjectId, indexed: bool): (r: Result<Collection, AdapterError>)
    ensures r.Failure? <==> indexed && Contains(c, line)
    ensures r.Failure? ==> r.error == DuplicateKey
    ensures r.Success? ==> r.value == c + [line.(id := Some(id))]
  {
    if indexed && FindFirst(c, line).Some? then Failure(DuplicateKey)
    else Success(c + [line.(id := Some(id))])
  }

  /**
   * DeleteOne: remove the first document whose seven fields equal `line`; nothing changes
   * when there is none.
   */
  function DeleteOne(c: Collection, line: CasbinRule): (r: Collection)
    ensures !Contains(c, line) ==> r == c
    ensures Contains(c, line) ==> exists i :: 0 <= i < |c| && Unkeyed(c[i]) == line && r == c[..i] + c[i + 1..]
    ensures |r| == if Contains(c, line) then |c| - 1 else |c|
  {
    match FindFirst(c, line)
    case None => c
    case Some(i) => c[..i] + c[i + 1..]
  }

  /**
   * DeleteMany: remove every document the selector matches. Each document that does not
   * match is kept, as many times as it occurred and in its order.
   */
  function DeleteMany(c: Collection, sel: Selector): (r: Collection)
    ensures forall x :: multiset(r)[x] == if Matches(sel, x) then 0 else multiset(c)[x]
    ensures forall x :: x in r <==> x in c && !Matches(sel, x)
  {
    if c == [] then []
    else
      var rest := DeleteMany(c[..|c| - 1], sel);
      assert c == c[..|c| - 1] + [c[|c| - 1]];
      if Matches(sel, c[|c| - 1]) then rest else rest + [c[|c| - 1]]
  }

  /** Whether the update would leave two documents with the same seven fields. */
  predicate UpdateCollides(c: Collection, i: nat, update: CasbinRule)
    requires i < |c|
  {
    exists j :: 0 <= j < |c| && j != i && Unkeyed(c[j]) == update
  }

  /**
   * UpdateOne with `$set`: the first document whose seven fields equal `filter` takes the seven
   * fields of `update` and keeps its identifier. Nothing changes when no document matches; the
   * unique index refuses an update that would duplicate another document.
   */
  function UpdateOne(c: Collection, filter: CasbinRule, update: CasbinRule, indexed: bool): (r: Result<Collection, AdapterError>)
    requires update.id == None
    ensures r.Failure? ==> r.error == DuplicateKey && indexed && Contains(c, filter) && Contains(c, update)
    ensures r.Success? ==> |r.value| == |c| && forall j :: 0 <= j < |c| ==> r.value[j].id == c[j].id
    ensures r.Success? ==> forall j, k :: 0 <= j < k < |c| ==> r.value[j] == c[j] || r.value[k] == c[k]
    ensures r.Success? ==> forall j :: 0 <= j < |c| && r.value[j] != c[j] ==>
              Unkeyed(c[j]) == filter && Unkeyed(r.value[j]) == update
    ensures r.Failure? <==>
      indexed && FindFirst(c, filter).Some? && UpdateCollides(c, FindFirst(c, filter).value, update)
    ensures !Contains(c, filter) ==> r == Success(c)
    ensures Contains(c, filter) && r.Success? ==>
      exists i :: 0 <= i < |c| && Unkeyed(c[i]) == filter && Unkeyed(r.value[i]) == update &&
        forall j :: 0 <= j < i ==> Unkeyed(c[j]) != filter
  {
    match FindFirst(c, filter)
    case None => Success(c)
    case Some(i) =>
      if indexed && UpdateCollides(c, i, update) then Failure(DuplicateKey)
      else
        var r := c[i := update.(id := c[i].id)];
        assert Unkeyed(r[i]) == update;
        Success(r)
  }

  /** InsertMany into a fresh collection: the documents in order, under consecutive fresh identifiers. */
  function AssignIds(lines: seq<CasbinRule>, next: ObjectId): (c: Collection)
    ensures |c| == |lines|
    ensures forall i :: 0 <= i < |lines| ==> c[i] == lines[i].(id := Some(next + i))
  {
    if lines == [] then [] else AssignIds(lines[..|lines| - 1], next) + [lines[|lines| - 1].(id := Some(next + |lines| - 1))]
  }

  /** Whether a load's filter (none: every document) selects a document. */
  predicate Selected(filter: Option<CasbinRule -> bool>, r: CasbinRule)
  {
    match filter
    case None => true
    case Some(f) => f(r)
  }

  /**
   * The policy lines a load hands to the engine, in cursor order: the loaded line of every
   * selected document, leaving out empty lines (the engine ignores them).
   */
  function LoadedLines(c: Collection, filter: Option<CasbinRule -> bool>): (lines: seq<seq<string>>)
    ensures |lines| <= |c|
  {
    if c == [] then []
    else
      var last := c[|c| - 1];
      LoadedLines(c[..|c| - 1], filter) +
        if Selected(filter, last) && LoadPolicyLine(last) != [] then [LoadPolicyLine(last)] else []
  }

  /** A load yields exactly the non-empty loaded lines of the selected documents. */
  lemma {:induction false} LoadedLinesExactly(c: Collection, filter: Option<CasbinRule -> bool>, t: seq<string>)
    ensures t in LoadedLines(c, filter) <==>
      t != [] && exists r :: r in c && Selected(filter, r) && LoadPolicyLine(r) == t
  {
    if c != [] {
      var init, last := c[..|c| - 1], c[|c| - 1];
      assert c == init + [last];
      LoadedLinesExactly(init, filter, t);
      if t != [] && exists r :: r in c && Selected(filter, r) && LoadPolicyLine(r) == t {
        var r :| r in c && Selected(filter, r) && LoadPolicyLine(r) == t;
        if r != last {
          assert r in init;
        }
      }
    }
  }

  /** The documents of rules `rules` of type `ptype`, in order. */
  function TranslateAll(ptype: string, rules: seq<seq<string>>): (lines: seq<CasbinRule>)
    ensures |lines| == |rules|
    ensures forall i :: 0 <= i < |rules| ==> lines[i] == SavePolicyLine(ptype, rules[i])
  {
    if rules == [] then []
    else TranslateAll(ptype, rules[..|rules| - 1]) + [SavePolicyLine(ptype, rules[|rules| - 1])]
  }

  /** The documents of the rules of one policy type of a section. */
  ghost function TypeLines(section: map<string, seq<seq<string>>>, ptype: string): multiset<CasbinRule>
    requires ptype in section
  {
    multiset(TranslateAll(ptype, section[ptype]))
  }

  /** The documents of every rule of one section (policy type to rules), whatever the order of the types. */
  ghost function Translations(section: map<string, seq<seq<string>>>): multiset<CasbinRule>
    decreases section.Keys
  {
    if section == map[] then multiset{}
    else
      var ptype :| ptype in section;
      TypeLines(section, ptype) + Translations(section - {ptype})
  }

  /** Translations does not depend on which policy type is taken first. */
  lemma {:induction false} TranslationsPick(section: map<string, seq<seq<string>>>, ptype: string)
    requires ptype in section
    ensures Translations(section) == TypeLines(section, ptype) + Translations(section - {ptype})
    decreases section.Keys
  {
    var first :| first in section && Translations(section) ==
      TypeLines(section, first) + Translations(section - {first});
    if first != ptype {
      var withoutFirst := section - {first};
      var withoutPType := section - {ptype};
      var both := withoutFirst - {ptype};
      assert withoutPType - {first} == both;
      assert TypeLines(withoutFirst, ptype) == TypeLines(section, ptype);
      assert TypeLines(withoutPType, first) == TypeLines(section, first);
      calc {
        Translations(section);
        TypeLines(section, first) + Translations(withoutFirst);
        { TranslationsPick(withoutFirst, ptype); }
        TypeLines(section, first) + (TypeLines(section, ptype) + Translations(both));
        TypeLines(section, ptype) + (TypeLines(section, first) + Translations(both));
        { TranslationsPick(withoutPType, first); }
        TypeLines(section, ptype) + Translations(withoutPType);
      }
    }
  }

  /** A store holding exactly `lines` (under fresh identifiers) holds their fields. */
  lemma AssignedIdsKeepFields(lines: seq<CasbinRule>, next: ObjectId)
    requires forall r :: r in lines ==> r.id == None
    ensures UnkeyedAll(AssignIds(lines, next)) == lines
    ensures WellFormed(AssignIds(lines, next), next + |lines|, false)
  {
    var c := AssignIds(lines, next);
    forall i | 0 <= i < |lines| ensures UnkeyedAll(c)[i] == lines[i] {
      assert lines[i] in lines;
    }
  }

  /** With the unique index, a successful insert followed by a delete of the same rule restores the store. */
  lemma AddThenRemoveRestores(c: Collection, line: CasbinRule, id: ObjectId)
    requires line.id == None
    requires InsertOne(c, line, id, true).Success?
    ensures DeleteOne(InsertOne(c, line, id, true).value, line) == c
  {
    var c' := c + [line.(id := Some(id))];
    assert Unkeyed(c'[|c|]) == line;
    assert FindFirst(c', line) == Some(|c|);
    assert c'[..|c|] == c;
  }

  /**
   * Without the unique index an insert may duplicate a document; the delete that follows then
   * takes out the earlier copy, so the store holds the same fields as before (as a multiset).
   */
  lemma AddThenRemoveKeepsFields(c: Collection, line: CasbinRule, id: ObjectId, indexed: bool)
    requires line.id == None
    requires InsertOne(c, line, id, indexed).Success?
    ensures multiset(UnkeyedAll(DeleteOne(InsertOne(c, line, id, indexed).value, line))) == multiset(UnkeyedAll(c))
  {
    var x := line.(id := Some(id));
    var c' := c + [x];
    assert Unkeyed(c'[|c|]) == line;
    var i := FindFirst(c', line).value;
    FieldsOfAppend(c, [x]);
    assert multiset(UnkeyedAll([x])) == multiset{line};
    UnkeyedAllRemoveAt(c', i);
  }

  lemma UnkeyedAllAppend(a: Collection, b: Collection)
    ensures UnkeyedAll(a + b) == UnkeyedAll(a) + UnkeyedAll(b)
  {
  }

  /** The multiset of fields of a concatenation is the sum of the parts'. */
  lemma {:induction false} FieldsOfAppend(a: Collection, b: Collection)
    ensures multiset(UnkeyedAll(a + b)) == multiset(UnkeyedAll(a)) + multiset(UnkeyedAll(b))
  {
    UnkeyedAllAppend(a, b);
  }

  /** Removing the document at i takes exactly its fields out of the multiset of fields. */
  lemma {:induction false} UnkeyedAllRemoveAt(c: Collection, i: nat)
    requires i < |c|
    ensures multiset(UnkeyedAll(c[..i] + c[i + 1..])) == multiset(UnkeyedAll(c)) - multiset{Unkeyed(c[i])}
  {
    var a, b := c[..i], c[i + 1..];
    assert c == (a + [c[i]]) + b;
    assert multiset(UnkeyedAll([c[i]])) == multiset{Unkeyed(c[i])};
    FieldsOfAppend(a + [c[i]], b);
    FieldsOfAppend(a, [c[i]]);
    FieldsOfAppend(a, b);
  }

  /** Every store operation keeps the store's invariant. */
  lemma InsertOneWellFormed(c: Collection, line: CasbinRule, next: ObjectId, indexed: bool)
    requires WellFormed(c, next, indexed) && line.id == None
    requires InsertOne(c, line, next, indexed).Success?
    ensures WellFormed(InsertOne(c, line, next, indexed).value, next + 1, indexed)
  {
    var c' := c + [line.(id := Some(next))];
    forall i, j | 0 <= i < j < |c'| ensures c'[i].id != c'[j].id {
      assert c'[i] in c;
      if j < |c| { assert c'[j] in c; }
    }
  }

  lemma DeleteOneWellFormed(c: Collection, line: CasbinRule, next: ObjectId, indexed: bool)
    requires WellFormed(c, next, indexed)
    ensures WellFormed(DeleteOne(c, line), next, indexed)
  {
    if Contains(c, line) {
      var i :| 0 <= i < |c| && Unkeyed(c[i]) == line && DeleteOne(c, line) == c[..i] + c[i + 1..];
      RemoveAtWellFormed(c, i, next, indexed);
    }
  }

  lemma RemoveAtWellFormed(c: Collection, i: nat, next: ObjectId, indexed: bool)
    requires WellFormed(c, next, indexed) && i < |c|
    ensures WellFormed(c[..i] + c[i + 1..], next, indexed)
  {
    var r := c[..i] + c[i + 1..];
    assert forall j :: 0 <= j < |r| ==> r[j] == c[if j < i then j else j + 1];
  }

  lemma {:induction false} DeleteManyWellFormed(c: Collection, sel: Selector, next: ObjectId, indexed: bool)
    requires WellFormed(c, next, indexed)
    ensures WellFormed(DeleteMany(c, sel), next, indexed)
  {
    if c != [] {
      var init := c[..|c| - 1];
      var last := c[|c| - 1];
      assert WellFormed(init, next, indexed) by {
        forall r | r in init ensures r in c { }
      }
      DeleteManyWellFormed(init, sel, next, indexed);
      if !Matches(sel, last) {
        var rest := DeleteMany(init, sel);
        forall r | r in init ensures r.id != last.id && (indexed ==> Unkeyed(r) != Unkeyed(last)) {
          var k :| 0 <= k < |init| && init[k] == r;
          assert c[k] == r;
        }
        assert last in c;
        AppendWellFormed(rest, last, next, indexed);
      }
    }
  }

  /** Appending a document unlike every other one keeps the invariant. */
  lemma AppendWellFormed(c: Collection, x: CasbinRule, next: ObjectId, indexed: bool)
    requires WellFormed(c, next, indexed)
    requires x.id.Some? && x.id.value < next
    requires forall r :: r in c ==> r.id != x.id && (indexed ==> Unkeyed(r) != Unkeyed(x))
    ensures WellFormed(c + [x], next, indexed)
  {
    var c' := c + [x];
    forall i, j | 0 <= i < j < |c'| ensures c'[i].id != c'[j].id && (indexed ==> Unkeyed(c'[i]) != Unkeyed(c'[j])) {
      assert c'[i] in c;
      if j < |c| { assert c'[j] in c; }
    }
  }

  lemma UpdateOneWellFormed(c: Collection, filter: CasbinRule, update: CasbinRule, next: ObjectId, indexed: bool)
    requires WellFormed(c, next, indexed) && update.id == None
    requires UpdateOne(c, filter, update, indexed).Success?
    ensures WellFormed(UpdateOne(c, filter, update, indexed).value, next, indexed)
  {
    var c' := UpdateOne(c, filter, update, indexed).value;
    forall r | r in c' ensures r.id.Some? && r.id.value < next {
      var k :| 0 <= k < |c'| && c'[k] == r;
      assert c[k] in c;
    }
    if indexed && c' != c {
      var i := FindFirst(c, filter).value;
      forall j, k | 0 <= j < k < |c'| ensures Unkeyed(c'[j]) != Unkeyed(c'[k]) {
        if j == i || k == i {
          assert !UpdateCollides(c, i, update);
        }
      }
    }
  }
}
