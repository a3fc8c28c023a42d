/**
 * The adapter: a handle on the `casbin_rule` collection with two mode flags, `filtered`
 * (changed by every load, gates SavePolicy) and `updatable` (set only by the updatable
 * constructors, gates UpdatePolicy), and the constructors that build it.
 */
module MongoAdapter {
  import opened Base
  import opened Rules
  import opened Selector
  import opened Store
  import opened Connection

  /** The rules of one section of the engine's model: policy type ("p", "p2", "g", ...) to its rules. */
  type Section = map<string, seq<seq<string>>>

  /** The engine's policy model: section name ("p", "g", "r", ...) to that section. */
  type PolicyModel = map<string, Section>

  /** The model's section `sec`, empty when the model has none. */
  function SectionOf(model: PolicyModel, sec: string): Section
  {
    if sec in model then model[sec] else map[]
  }

  /** The client options built from a connection URL; the driver reads them, the model only keeps them. */
  datatype ClientOptions = ClientOptions(uri: string)

  class Adapter {
    const clientOption: ClientOptions
    const databaseName: string
    /** The collection within that database; always `casbin_rule`. */
    const collectionName: string
    const timeout: Duration
    var updatable: bool
    var filtered: bool

    /** The documents of the collection, in natural order. */
    var collection: Collection
    /** The identifier the store gives the next document it inserts. */
    var nextId: ObjectId
    /** Whether the unique index over (ptype, v0..v5) exists; dropping the collection drops it too. */
    var uniqueIndex: bool

    ghost predicate Valid()
      reads this
    {
      WellFormed(collection, nextId, uniqueIndex)
    }

    /**
     * open(): connect, select the collection of database `databaseName` and create the unique
     * index. `existing` is what the collection already holds; its documents have no two equal
     * (ptype, v0..v5), or the index could not have been built.
     */
    constructor Open(clientOption: ClientOptions, databaseName: string, timeout: Duration, existing: seq<CasbinRule>)
      requires KeysDistinct(existing)
      ensures Valid()
      ensures this.clientOption == clientOption && this.databaseName == databaseName && this.timeout == timeout
      ensures collectionName == CollectionName
      ensures !updatable && !filtered && uniqueIndex
      ensures UnkeyedAll(collection) == UnkeyedAll(existing)
    {
      this.clientOption := clientOption;
      this.databaseName := databaseName;
      collectionName := CollectionName;
      this.timeout := timeout;
      updatable := false;
      filtered := false;
      var lines := UnkeyedAll(existing);
      collection := AssignIds(lines, 0);
      nextId := |existing|;
      uniqueIndex := true;
      new;
      assert forall r :: r in lines ==> r.id == None;
      AssignedIdsKeepFields(lines, 0);
      assert KeysDistinct(collection) by {
        forall i, j | 0 <= i < j < |collection| ensures Unkeyed(collection[i]) != Unkeyed(collection[j]) {
          assert Unkeyed(collection[i]) == Unkeyed(existing[i]);
          assert Unkeyed(collection[j]) == Unkeyed(existing[j]);
        }
      }
    }

    /**
     * LoadFilteredPolicy: with no filter every document is read and the adapter is marked
     * unfiltered; with a filter only the documents it selects are read and the adapter is marked
     * filtered. Returns the policy lines appended to the engine's model, in cursor order.
     */
    method LoadFilteredPolicy(filter: Option<CasbinRule -> bool>) returns (lines: seq<seq<string>>)
      requires Valid()
      modifies this`filtered
      ensures Valid()
      ensures filtered == filter.Some?
      ensures lines == LoadedLines(collection, filter)
    {
      filtered := filter.Some?;
      lines := [];
      var i := 0;
      while i < |collection|
        invariant 0 <= i <= |collection|
        invariant lines == LoadedLines(collection[..i], filter)
      {
        var line := collection[i];
        assert collection[..i + 1] == collection[..i] + [line];
        if Selected(filter, line) {
          var tokens := LoadPolicyLine(line);
          if tokens != [] {
            lines := lines + [tokens];
          }
        }
        i := i + 1;
      }
      assert collection[..i] == collection;
    }

    /** LoadPolicy: a load without filter. */
    method LoadPolicy() returns (lines: seq<seq<string>>)
      requires Valid()
      modifies this`filtered
      ensures Valid()
      ensures !filtered
      ensures lines == LoadedLines(collection, None)
    {
      lines := LoadFilteredPolicy(None);
    }

    /** IsFiltered: whether the last load used a filter (or the adapter was built filtered). */
    method IsFiltered() returns (f: bool)
      ensures f == filtered
    {
      f := filtered;
    }

    /**
     * SavePolicy: refused while filtered, changing nothing. Otherwise the collection is dropped
     * (with its unique index) and refilled with the document of every rule of the model's "p"
     * and "g" sections.
     */
    method SavePolicy(model: PolicyModel) returns (err: Option<AdapterError>)
      requires Valid()
      modifies this`collection, this`nextId, this`uniqueIndex
      ensures Valid()
      ensures filtered ==> err == Some(FilteredSave) && unchanged(this)
      ensures !filtered ==> (err == None && !uniqueIndex &&
        multiset(UnkeyedAll(collection)) == Translations(SectionOf(model, "p")) + Translations(SectionOf(model, "g")))
    {
      if filtered {
        return Some(FilteredSave);
      }
      DropTable();
      var lines := TranslateSection([], SectionOf(model, "p"));
      lines := TranslateSection(lines, SectionOf(model, "g"));
      InsertMany(lines);
      err := None;
    }

    /** dropTable: the collection is dropped, and its unique index with it. */
    method DropTable()
      requires Valid()
      modifies this`collection, this`uniqueIndex
      ensures Valid()
      ensures collection == [] && !uniqueIndex
    {
      collection := [];
      uniqueIndex := false;
    }

    /**
     * InsertMany into the collection after it was dropped: the documents go in, in order, under
     * fresh identifiers; with no unique index there is nothing to refuse them.
     */
    method InsertMany(lines: seq<CasbinRule>)
      requires Valid() && collection == [] && !uniqueIndex
      requires forall r :: r in lines ==> r.id == None
      modifies this`collection, this`nextId
      ensures Valid()
      ensures UnkeyedAll(collection) == lines
      ensures multiset(UnkeyedAll(collection)) == multiset(lines)
    {
      AssignedIdsKeepFields(lines, nextId);
      collection := AssignIds(lines, nextId);
      nextId := nextId + |lines|;
    }

    /**
     * AddPolicy: insert the document of the rule. With the unique index present, an equal
     * document already stored makes it fail with nothing changed.
     */
    method AddPolicy(sec: string, ptype: string, rule: seq<string>) returns (err: Option<AdapterError>)
      requires Valid()
      modifies this`collection, this`nextId
      ensures Valid()
      ensures var line := SavePolicyLine(ptype, rule);
        if uniqueIndex && Contains(old(collection), line) then
          err == Some(DuplicateKey) && collection == old(collection) && nextId == old(nextId)
        else
          err == None && collection == old(collection) + [line.(id := Some(old(nextId)))] && nextId == old(nextId) + 1
    {
      var line := SavePolicyLine(ptype, rule);
      match InsertOne(collection, line, nextId, uniqueIndex)
      case Failure(e) =>
        err := Some(e);
      case Success(c) =>
        InsertOneWellFormed(collection, line, nextId, uniqueIndex);
        collection := c;
        nextId := nextId + 1;
        err := None;
    }

    /** RemovePolicy: delete the first document equal to the rule's; no match is not an error. */
    method RemovePolicy(sec: string, ptype: string, rule: seq<string>) returns (err: Option<AdapterError>)
      requires Valid()
      modifies this`collection
      ensures Valid()
      ensures err == None
      ensures collection == DeleteOne(old(collection), SavePolicyLine(ptype, rule))
    {
      DeleteOneWellFormed(collection, SavePolicyLine(ptype, rule), nextId, uniqueIndex);
      collection := DeleteOne(collection, SavePolicyLine(ptype, rule));
      err := None;
    }

    /** RemoveFilteredPolicy: delete every document the selector built from the arguments matches. */
    method RemoveFilteredPolicy(sec: string, ptype: string, fieldIndex: int, fieldValues: seq<string>)
      returns (err: Option<AdapterError>)
      requires Valid()
      modifies this`collection
      ensures Valid()
      ensures err == None
      ensures collection == DeleteMany(old(collection), BuildSelector(ptype, fieldIndex, fieldValues))
    {
      var selector := BuildSelector(ptype, fieldIndex, fieldValues);
      DeleteManyWellFormed(collection, selector, nextId, uniqueIndex);
      collection := DeleteMany(collection, selector);
      err := None;
    }

    /**
     * UpdatePolicy: refused unless the adapter is updatable. Otherwise the first document equal
     * to the old rule's takes the fields of the new rule and keeps its identifier.
     */
    method UpdatePolicy(sec: string, ptype: string, oldRule: seq<string>, newPolicy: seq<string>)
      returns (err: Option<AdapterError>)
      requires Valid()
      modifies this`collection
      ensures Valid()
      ensures !updatable ==> err == Some(NotUpdatable) && collection == old(collection)
      ensures updatable ==>
        match UpdateOne(old(collection), SavePolicyLine(ptype, oldRule), SavePolicyLine(ptype, newPolicy), uniqueIndex)
        case Failure(e) => err == Some(e) && collection == old(collection)
        case Success(c) => err == None && collection == c
    {
      if !updatable {
        return Some(NotUpdatable);
      }
      var filter := SavePolicyLine(ptype, oldRule);
      var update := SavePolicyLine(ptype, newPolicy);
      match UpdateOne(collection, filter, update, uniqueIndex)
      case Failure(e) =>
        err := Some(e);
      case Success(c) =>
        UpdateOneWellFormed(collection, filter, update, nextId, uniqueIndex);
        collection := c;
        err := None;
    }
  }

  /**
   * The outer loop of SavePolicy over one section: append the documents of the rules of every
   * policy type, visiting the types in an unspecified order (Go's map order).
   */
  method TranslateSection(lines: seq<CasbinRule>, section: Section) returns (out: seq<CasbinRule>)
    requires forall r :: r in lines ==> r.id == None
    ensures forall r :: r in out ==> r.id == None
    ensures multiset(out) == multiset(lines) + Translations(section)
  {
    out := lines;
    var remaining := section;
    while remaining != map[]
      invariant forall r :: r in out ==> r.id == None
      invariant multiset(out) + Translations(remaining) == multiset(lines) + Translations(section)
      decreases remaining.Keys
    {
      var ptype :| ptype in remaining;
      ghost var before := out;
      out := TranslateRules(out, ptype, remaining[ptype]);
      assert multiset(out) == multiset(before) + TypeLines(remaining, ptype);
      TranslationsPick(remaining, ptype);
      remaining := remaining - {ptype};
    }
  }

  /** The inner loop of SavePolicy: append the document of each rule of one policy type, in order. */
  method TranslateRules(lines: seq<CasbinRule>, ptype: string, rules: seq<seq<string>>) returns (out: seq<CasbinRule>)
    requires forall r :: r in lines ==> r.id == None
    ensures forall r :: r in out ==> r.id == None
    ensures out == lines + TranslateAll(ptype, rules)
  {
    out := lines;
    var j := 0;
    while j < |rules|
      invariant 0 <= j <= |rules|
      invariant forall r :: r in out ==> r.id == None
      invariant out == lines + TranslateAll(ptype, rules[..j])
    {
      assert rules[..j + 1][..j] == rules[..j];
      out := out + [SavePolicyLine(ptype, rules[j])];
      j := j + 1;
    }
    assert rules[..j] == rules;
  }

  /** NewAdapterWithClientOption: check the timeout argument, then open the collection. */
  method NewAdapterWithClientOption(clientOption: ClientOptions, databaseName: string, timeout: seq<Duration>,
                                    existing: seq<CasbinRule>)
    returns (a: Adapter?, err: Option<AdapterError>)
    ensures TimeoutFromArgs(timeout).Failure? ==> a == null && err == Some(TooManyArguments)
    ensures TimeoutFromArgs(timeout).Success? && !KeysDistinct(existing) ==> a == null && err == Some(IndexBuildFailed)
    ensures TimeoutFromArgs(timeout).Success? && KeysDistinct(existing) ==>
      && err == None && a != null && fresh(a) && a.Valid()
      && a.clientOption == clientOption && a.databaseName == databaseName && a.collectionName == CollectionName
      && a.timeout == TimeoutFromArgs(timeout).value
      && !a.filtered && !a.updatable && a.uniqueIndex
      && UnkeyedAll(a.collection) == UnkeyedAll(existing)
  {
    var t := TimeoutFromArgs(timeout);
    if t.Failure? {
      return null, Some(t.error);
    }
    if !KeysDistinct(existing) {
      return null, Some(IndexBuildFailed);
    }
    a := new Adapter.Open(clientOption, databaseName, t.value, existing);
    err := None;
  }

  /**
   * NewAdapter: normalise the URL, parse it (`parsePath` gives the path of a URL, or nothing when
   * it does not parse), take the database name from the path, and continue as
   * NewAdapterWithClientOption.
   */
  method NewAdapter(url: string, timeout: seq<Duration>, parsePath: string -> Option<string>, existing: seq<CasbinRule>)
    returns (a: Adapter?, err: Option<AdapterError>)
    ensures a == null <==> err.Some?
    ensures parsePath(NormalizeUrl(url)).None? ==> a == null && err == Some(InvalidUrl)
    ensures a != null ==>
      && fresh(a) && a.Valid()
      && parsePath(NormalizeUrl(url)).Some?
      && a.clientOption == ClientOptions(NormalizeUrl(url))
      && a.databaseName == DatabaseName(parsePath(NormalizeUrl(url)).value)
      && TimeoutFromArgs(timeout) == Success(a.timeout)
      && !a.filtered && !a.updatable && a.uniqueIndex
      && UnkeyedAll(a.collection) == UnkeyedAll(existing)
    ensures parsePath(NormalizeUrl(url)).Some? && |timeout| > 1 ==> err == Some(TooManyArguments)
    ensures parsePath(NormalizeUrl(url)).Some? && TimeoutFromArgs(timeout).Success? && !KeysDistinct(existing) ==>
      err == Some(IndexBuildFailed)
    ensures parsePath(NormalizeUrl(url)).Some? && TimeoutFromArgs(timeout).Success? && KeysDistinct(existing) ==> a != null
  {
    var u := NormalizeUrl(url);
    var clientOption := ClientOptions(u);
    match parsePath(u)
    case None =>
      return null, Some(InvalidUrl);
    case Some(path) =>
      a, err := NewAdapterWithClientOption(clientOption, DatabaseName(path), timeout, existing);
  }

  /** NewFilteredAdapter: NewAdapter without a timeout argument, then marked filtered. */
  method NewFilteredAdapter(url: string, parsePath: string -> Option<string>, existing: seq<CasbinRule>)
    returns (a: Adapter?, err: Option<AdapterError>)
    ensures a == null <==> err.Some?
    ensures parsePath(NormalizeUrl(url)).None? ==> err == Some(InvalidUrl)
    ensures parsePath(NormalizeUrl(url)).Some? && !KeysDistinct(existing) ==> err == Some(IndexBuildFailed)
    ensures parsePath(NormalizeUrl(url)).Some? && KeysDistinct(existing) ==> a != null
    ensures a != null ==>
      && fresh(a) && a.Valid() && a.filtered && !a.updatable && a.uniqueIndex
      && a.clientOption == ClientOptions(NormalizeUrl(url))
      && a.databaseName == DatabaseName(parsePath(NormalizeUrl(url)).value)
      && a.timeout == DefaultTimeout
      && UnkeyedAll(a.collection) == UnkeyedAll(existing)
  {
    a, err := NewAdapter(url, [], parsePath, existing);
    if err.None? {
      a.filtered := true;
    }
  }

  /** NewUpdatableAdapter: NewAdapter, then marked updatable. */
  method NewUpdatableAdapter(url: string, timeout: seq<Duration>, parsePath: string -> Option<string>,
                             existing: seq<CasbinRule>)
    returns (a: Adapter?, err: Option<AdapterError>)
    ensures a == null <==> err.Some?
    ensures parsePath(NormalizeUrl(url)).None? ==> err == Some(InvalidUrl)
    ensures parsePath(NormalizeUrl(url)).Some? && |timeout| > 1 ==> err == Some(TooManyArguments)
    ensures parsePath(NormalizeUrl(url)).Some? && TimeoutFromArgs(timeout).Success? && !KeysDistinct(existing) ==>
      err == Some(IndexBuildFailed)
    ensures parsePath(NormalizeUrl(url)).Some? && TimeoutFromArgs(timeout).Success? && KeysDistinct(existing) ==> a != null
    ensures a != null ==>
      && fresh(a) && a.Valid() && a.updatable && !a.filtered && a.uniqueIndex
      && a.clientOption == ClientOptions(NormalizeUrl(url))
      && a.databaseName == DatabaseName(parsePath(NormalizeUrl(url)).value)
      && TimeoutFromArgs(timeout) == Success(a.timeout)
      && UnkeyedAll(a.collection) == UnkeyedAll(existing)
  {
    a, err := NewAdapter(url, timeout, parsePath, existing);
    if err.None? {
      a.updatable := true;
    }
  }

  /** NewUpdatableAdapterWithClientOption: NewAdapterWithClientOption, then marked updatable. */
  method NewUpdatableAdapterWithClientOption(clientOption: ClientOptions, databaseName: string, timeout: seq<Duration>,
                                             existing: seq<CasbinRule>)
    returns (a: Adapter?, err: Option<AdapterError>)
    ensures a == null <==> err.Some?
    ensures TimeoutFromArgs(timeout).Failure? ==> err == Some(TooManyArguments)
    ensures TimeoutFromArgs(timeout).Success? && !KeysDistinct(existing) ==> err == Some(IndexBuildFailed)
    ensures TimeoutFromArgs(timeout).Success? && KeysDistinct(existing) ==> a != null
    ensures a != null ==>
      && fresh(a) && a.Valid() && a.updatable && !a.filtered && a.uniqueIndex
      && a.clientOption == clientOption && a.databaseName == databaseName
      && TimeoutFromArgs(timeout) == Success(a.timeout)
      && UnkeyedAll(a.collection) == UnkeyedAll(existing)
  {
    a, err := NewAdapterWithClientOption(clientOption, databaseName, timeout, existing);
    if err.None? {
      a.updatable := true;
    }
  }
}
