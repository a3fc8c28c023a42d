/**
 * The rule translator: the fixed seven-field document a policy rule is stored as,
 * and the two pure mappings between it and the engine's token lists.
 */
module Rules {
  import opened Base

  /** One document of the `casbin_rule` collection: a policy type and six positional values. */
  datatype CasbinRule = CasbinRule(
    id: Option<ObjectId>,
    ptype: string,
    v0: string, v1: string, v2: string, v3: string, v4: string, v5: string)

  /** The number of positional value fields of a document. */
  const FieldCount := 6

  /** The positional values v0..v5 of a document. */
  function Values(r: CasbinRule): (vs: seq<string>)
    ensures |vs| == FieldCount
  {
    [r.v0, r.v1, r.v2, r.v3, r.v4, r.v5]
  }

  /** The seven indexed fields of a document, without its store identifier. */
  function Unkeyed(r: CasbinRule): CasbinRule
  {
    r.(id := None)
  }

  /** Two documents without identifiers are equal exactly when their type and values are. */
  lemma UnkeyedEquality(a: CasbinRule, b: CasbinRule)
    requires a.id == None && b.id == None
    ensures a == b <==> a.ptype == b.ptype && Values(a) == Values(b)
  {
    if a.ptype == b.ptype && Values(a) == Values(b) {
      assert a.v0 == Values(a)[0] == Values(b)[0] == b.v0;
      assert a.v1 == Values(a)[1] == Values(b)[1] == b.v1;
      assert a.v2 == Values(a)[2] == Values(b)[2] == b.v2;
      assert a.v3 == Values(a)[3] == Values(b)[3] == b.v3;
      assert a.v4 == Values(a)[4] == Values(b)[4] == b.v4;
      assert a.v5 == Values(a)[5] == Values(b)[5] == b.v5;
    }
  }

  /**
   * savePolicyLine: the document for rule `rule` of type `ptype`. Position i takes rule[i]
   * when the rule is long enough and "" otherwise; tokens past the sixth are dropped,
   * and no identifier is set.
   */
  function SavePolicyLine(ptype: string, rule: seq<string>): (line: CasbinRule)
    ensures line.id == None && line.ptype == ptype
    ensures forall i :: 0 <= i < FieldCount ==> Values(line)[i] == if i < |rule| then rule[i] else ""
  {
    CasbinRule(None, ptype,
      if |rule| > 0 then rule[0] else "",
      if |rule| > 1 then rule[1] else "",
      if |rule| > 2 then rule[2] else "",
      if |rule| > 3 then rule[3] else "",
      if |rule| > 4 then rule[4] else "",
      if |rule| > 5 then rule[5] else "")
  }

  /** Tokens beyond the sixth never reach the document. */
  lemma SaveDropsExtraTokens(ptype: string, rule: seq<string>)
    requires |rule| > FieldCount
    ensures SavePolicyLine(ptype, rule) == SavePolicyLine(ptype, rule[..FieldCount])
  {
    UnkeyedEquality(SavePolicyLine(ptype, rule), SavePolicyLine(ptype, rule[..FieldCount]));
  }

  /**
   * loadPolicyLine: the tokens of the policy line rebuilt from a document: the type followed by
   * v0..vk, where vk is the last non-empty value; empty values before vk are kept. A document
   * whose values are all empty yields the empty line, which the engine ignores.
   */
  function LoadPolicyLine(line: CasbinRule): (tokens: seq<string>)
    ensures tokens == [] <==> forall i :: 0 <= i < FieldCount ==> Values(line)[i] == ""
    ensures tokens != [] ==>
      && 2 <= |tokens| <= FieldCount + 1
      && tokens[0] == line.ptype
      && tokens[1..] == Values(line)[..|tokens| - 1]
      && tokens[|tokens| - 1] != ""
      && forall i :: |tokens| - 1 <= i < FieldCount ==> Values(line)[i] == ""
  {
    var p := [line.ptype, line.v0, line.v1, line.v2, line.v3, line.v4, line.v5];
    assert p[1..] == Values(line);
    if line.v5 != "" then assert Values(line)[5] != ""; p
    else if line.v4 != "" then assert Values(line)[4] != "" && p[..6][1..] == Values(line)[..5]; p[..6]
    else if line.v3 != "" then assert Values(line)[3] != "" && p[..5][1..] == Values(line)[..4]; p[..5]
    else if line.v2 != "" then assert Values(line)[2] != "" && p[..4][1..] == Values(line)[..3]; p[..4]
    else if line.v1 != "" then assert Values(line)[1] != "" && p[..3][1..] == Values(line)[..2]; p[..3]
    else if line.v0 != "" then assert Values(line)[0] != "" && p[..2][1..] == Values(line)[..1]; p[..2]
    else []
  }

  /** Reference definition: a sequence of values without its trailing empty strings. */
  function TrimTrailingEmpty(s: seq<string>): (t: seq<string>)
  {
    if s == [] then []
    else if s[|s| - 1] == "" then TrimTrailingEmpty(s[..|s| - 1])
    else s
  }

  /** The trimmed sequence is a prefix of the original, ends in a non-empty value, and only empty values were cut. */
  lemma {:induction false} TrimTrailingEmptyShape(s: seq<string>)
    ensures |TrimTrailingEmpty(s)| <= |s|
    ensures TrimTrailingEmpty(s) == s[..|TrimTrailingEmpty(s)|]
    ensures TrimTrailingEmpty(s) != [] ==> TrimTrailingEmpty(s)[|TrimTrailingEmpty(s)| - 1] != ""
    ensures forall i :: |TrimTrailingEmpty(s)| <= i < |s| ==> s[i] == ""
  {
    if s != [] && s[|s| - 1] == "" {
      var s' := s[..|s| - 1];
      TrimTrailingEmptyShape(s');
      assert TrimTrailingEmpty(s) == TrimTrailingEmpty(s');
    }
  }

  /** A prefix of s ending in a non-empty value, after which s holds only empty values, is the trimmed s. */
  lemma {:induction false} TrimTrailingEmptyUnique(s: seq<string>, k: nat)
    requires k <= |s|
    requires k > 0 ==> s[k - 1] != ""
    requires forall i :: k <= i < |s| ==> s[i] == ""
    ensures TrimTrailingEmpty(s) == s[..k]
  {
    if |s| > k {
      var s' := s[..|s| - 1];
      assert s[|s| - 1] == "";
      TrimTrailingEmptyUnique(s', k);
      assert s'[..k] == s[..k];
    }
  }

  /** loadPolicyLine agrees with the reference: the type, then the trimmed values, unless nothing is left. */
  lemma LoadIsTypeThenTrimmedValues(line: CasbinRule)
    ensures LoadPolicyLine(line) ==
      if TrimTrailingEmpty(Values(line)) == [] then [] else [line.ptype] + TrimTrailingEmpty(Values(line))
  {
    var tokens := LoadPolicyLine(line);
    var vs := Values(line);
    if tokens == [] {
      TrimTrailingEmptyUnique(vs, 0);
    } else {
      TrimTrailingEmptyUnique(vs, |tokens| - 1);
      assert tokens == [tokens[0]] + tokens[1..];
    }
  }

  /**
   * The round trip of the engine's rules: a rule of one to six tokens whose last token is
   * non-empty comes back from storage as its type followed by exactly its tokens.
   */
  lemma {:induction false} SaveThenLoad(ptype: string, rule: seq<string>)
    requires 1 <= |rule| <= FieldCount
    requires rule[|rule| - 1] != ""
    ensures LoadPolicyLine(SavePolicyLine(ptype, rule)) == [ptype] + rule
  {
    var line := SavePolicyLine(ptype, rule);
    var tokens := LoadPolicyLine(line);
    assert Values(line)[|rule| - 1] != "";
    assert |tokens| - 1 == |rule|;
    assert tokens[1..] == rule;
    assert tokens == [tokens[0]] + tokens[1..];
  }

  /**
   * The round trip for every rule: what comes back is the type and the first six tokens with
   * trailing empty tokens cut, or nothing at all when those six tokens are all empty.
   */
  lemma SaveThenLoadAnyRule(ptype: string, rule: seq<string>)
    ensures var kept := TrimTrailingEmpty(if |rule| <= FieldCount then rule else rule[..FieldCount]);
      LoadPolicyLine(SavePolicyLine(ptype, rule)) == if kept == [] then [] else [ptype] + kept
  {
    SavedValuesTrimLikeRule(ptype, rule);
    LoadIsTypeThenTrimmedValues(SavePolicyLine(ptype, rule));
  }

  /** The stored values, trimmed, are the rule's first six tokens, trimmed. */
  lemma SavedValuesTrimLikeRule(ptype: string, rule: seq<string>)
    ensures TrimTrailingEmpty(Values(SavePolicyLine(ptype, rule)))
         == TrimTrailingEmpty(if |rule| <= FieldCount then rule else rule[..FieldCount])
  {
    PositionalTrimLikeRule(Values(SavePolicyLine(ptype, rule)), rule);
  }

  /** Six values holding the rule's tokens where it has them and "" elsewhere trim like the rule's first six tokens. */
  lemma PositionalTrimLikeRule(vs: seq<string>, rule: seq<string>)
    requires |vs| == FieldCount
    requires forall i :: 0 <= i < FieldCount ==> vs[i] == if i < |rule| then rule[i] else ""
    ensures TrimTrailingEmpty(vs) == TrimTrailingEmpty(if |rule| <= FieldCount then rule else rule[..FieldCount])
  {
    var head := if |rule| <= FieldCount then rule else rule[..FieldCount];
    assert vs[..|head|] == head;
    TrimIgnoresPadding(vs, head);
  }

  /** Padding a sequence with empty values does not change it once trimmed. */
  lemma TrimIgnoresPadding(padded: seq<string>, s: seq<string>)
    requires |s| <= |padded| && padded[..|s|] == s
    requires forall i :: |s| <= i < |padded| ==> padded[i] == ""
    ensures TrimTrailingEmpty(padded) == TrimTrailingEmpty(s)
  {
    var kept := TrimTrailingEmpty(s);
    TrimTrailingEmptyShape(s);
    if kept != [] {
      assert padded[|kept| - 1] == s[|kept| - 1];
    }
    forall i | |kept| <= i < |padded|
      ensures padded[i] == ""
    {
      if i < |s| { assert padded[i] == s[i]; }
    }
    TrimTrailingEmptyUnique(padded, |kept|);
    assert padded[..|kept|] == s[..|kept|];
  }

  /** The other round trip: saving the tokens loaded from a document rebuilds its seven fields. */
  lemma LoadThenSave(line: CasbinRule)
    requires LoadPolicyLine(line) != []
    ensures var tokens := LoadPolicyLine(line);
      tokens[0] == line.ptype && SavePolicyLine(tokens[0], tokens[1..]) == Unkeyed(line)
  {
    var tokens := LoadPolicyLine(line);
    var saved := SavePolicyLine(tokens[0], tokens[1..]);
    forall i | 0 <= i < FieldCount
      ensures Values(saved)[i] == Values(Unkeyed(line))[i]
    {
    }
    UnkeyedEquality(saved, Unkeyed(line));
  }

  /** A document whose values are all empty is not loaded at all, not even as its type. */
  lemma EmptyValuesLoadNothing(ptype: string)
    ensures LoadPolicyLine(SavePolicyLine(ptype, [])) == []
    ensures LoadPolicyLine(SavePolicyLine(ptype, ["", "", ""])) == []
  {
  }

  /** Empty values inside the populated range are kept (the document with only v3 set gives four values). */
  lemma InteriorEmptyValuesKept(ptype: string, x: string)
    requires x != ""
    ensures LoadPolicyLine(SavePolicyLine(ptype, ["", "", "", x])) == [ptype, "", "", "", x]
  {
  }
}
