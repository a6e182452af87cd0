/** The three loops over untrusted command results, each proved equal to a filter-then-map
    specification with an exact failure condition. */
module Parsers {
  import opened Json
  import opened Sequences
  import opened Summary

  /** `Failed` is any exception a parser raises: its own, or an attribute or type error. */
  datatype Parse<+T> = Parsed(items: seq<T>) | Failed

  function Append<T>(a: Parse<T>, b: Parse<T>): Parse<T> {
    if a.Parsed? && b.Parsed? then Parsed(a.items + b.items) else Failed
  }

  /** The common shape of the three specifications. */
  ghost function Collect<T>(bad: Value -> bool, keep: Value -> bool, item: Value -> T, entries: seq<Value>): Parse<T> {
    if exists e :: e in entries && bad(e) then Failed
    else Parsed(Map(item, Filter(keep, entries)))
  }

  /** One more entry extends the specified result by nothing or by its item. */
  lemma StepCollect<T>(keep: Value -> bool, item: Value -> T, entries: seq<Value>, i: nat)
    requires i < |entries|
    ensures entries[..i + 1] == entries[..i] + [entries[i]]
    ensures Map(item, Filter(keep, entries[..i + 1]))
         == Map(item, Filter(keep, entries[..i])) + if keep(entries[i]) then [item(entries[i])] else []
  {
    assert entries[..i + 1] == entries[..i] + [entries[i]];
    FilterAppend(keep, entries[..i], [entries[i]]);
    MapAppend(item, Filter(keep, entries[..i]), Filter(keep, [entries[i]]));
  }

  // ---------------------------------------------------------------- pending updates

  const UPDATE_PREFIX := "update."

  predicate HasUpdatePrefix(s: string) {
    UPDATE_PREFIX <= s
  }

  predicate IsUpdate(e: Value) {
    && e.Obj?
    && Get(e.fields, "entity_id", Str("")).Str?
    && HasUpdatePrefix(Get(e.fields, "entity_id", Str("")).s)
    && Get(e.fields, "state", Null) == Str("on")
  }

  predicate IsBadUpdate(e: Value) {
    && e.Obj?
    && (|| !Get(e.fields, "entity_id", Str("")).Str?
        || (&& IsUpdate(e)
            && Truthy(Get(e.fields, "attributes", Null))
            && !Get(e.fields, "attributes", Null).Obj?))
  }

  function UpdateOf(e: Value): UpdateItem {
    if !e.Obj? then UpdateItem("", Null)
    else
      var id := Get(e.fields, "entity_id", Str(""));
      if !id.Str? then UpdateItem("", id)
      else
        var attributes := Get(e.fields, "attributes", Null);
        var friendly := if attributes.Obj? then Get(attributes.fields, "friendly_name", Null) else Null;
        UpdateItem(id.s, Or(friendly, id))
  }

  ghost function PendingUpdates(states: Value): Parse<UpdateItem> {
    if states.Arr? then Collect(IsBadUpdate, IsUpdate, UpdateOf, states.items) else Failed
  }

  method ParsePendingUpdates(states: Value) returns (r: Parse<UpdateItem>)
    ensures r == PendingUpdates(states)
  {
    if !states.Arr? {
      return Failed;
    }
    var updates: seq<UpdateItem> := [];
    var i := 0;
    while i < |states.items|
      invariant 0 <= i <= |states.items|
      invariant forall e :: e in states.items[..i] ==> !IsBadUpdate(e)
      invariant updates == Map(UpdateOf, Filter(IsUpdate, states.items[..i]))
    {
      var state := states.items[i];
      StepCollect(IsUpdate, UpdateOf, states.items, i);
      i := i + 1;
      if !state.Obj? {
        continue;
      }
      var entityId := Get(state.fields, "entity_id", Str(""));
      if !entityId.Str? {
        assert IsBadUpdate(state);
        return Failed;
      }
      if !HasUpdatePrefix(entityId.s) || Get(state.fields, "state", Null) != Str("on") {
        continue;
      }
      var attributes := Or(Get(state.fields, "attributes", Null), Obj(map[]));
      if !attributes.Obj? {
        assert IsBadUpdate(state);
        return Failed;
      }
      var name := Or(Get(attributes.fields, "friendly_name", Null), entityId);
      updates := updates + [UpdateItem(entityId.s, name)];
    }
    assert states.items[..i] == states.items;
    r := Parsed(updates);
  }

  // ---------------------------------------------------------------- repair issues

  predicate IsOpenIssue(e: Value) {
    e.Obj? && !Truthy(Get(e.fields, "ignored", Null))
  }

  /** No content of an issue makes the loop fail. */
  predicate IsBadIssue(e: Value) {
    false
  }

  function IssueOf(e: Value): RepairIssue {
    if !e.Obj? then RepairIssue(Null, Null)
    else RepairIssue(Get(e.fields, "issue_id", Str("")),
                     Or(Get(e.fields, "translation_key", Null), Str(UNKNOWN_ISSUE_NAME)))
  }

  ghost function RepairIssues(result: Value): Parse<RepairIssue> {
    if result.Obj? && Get(result.fields, "issues", Null).Arr?
    then Collect(IsBadIssue, IsOpenIssue, IssueOf, Get(result.fields, "issues", Null).items)
    else Failed
  }

  method ParseRepairIssues(result: Value) returns (r: Parse<RepairIssue>)
    ensures r == RepairIssues(result)
  {
    if !result.Obj? {
      return Failed;
    }
    var issues := Get(result.fields, "issues", Null);
    if !issues.Arr? {
      return Failed;
    }
    var parsed: seq<RepairIssue> := [];
    var i := 0;
    while i < |issues.items|
      invariant 0 <= i <= |issues.items|
      invariant parsed == Map(IssueOf, Filter(IsOpenIssue, issues.items[..i]))
    {
      var issue := issues.items[i];
      StepCollect(IsOpenIssue, IssueOf, issues.items, i);
      i := i + 1;
      if !issue.Obj? || Truthy(Get(issue.fields, "ignored", Null)) {
        continue;
      }
      var issueId := Get(issue.fields, "issue_id", Str(""));
      var translationKey := Get(issue.fields, "translation_key", Null);
      if Truthy(translationKey) {
        parsed := parsed + [RepairIssue(issueId, translationKey)];
      } else {
        parsed := parsed + [RepairIssue(issueId, Str(UNKNOWN_ISSUE_NAME))];
      }
    }
    assert issues.items[..i] == issues.items;
    r := Parsed(parsed);
  }

  // ---------------------------------------------------------------- integration errors

  const ERROR_STATES := {"setup_error", "setup_retry", "migration_error", "failed_unload"}

  predicate IsErrorEntry(e: Value) {
    && e.Obj?
    && Get(e.fields, "state", Null).Str?
    && Get(e.fields, "state", Null).s in ERROR_STATES
  }

  predicate IsBadEntry(e: Value) {
    e.Obj? && !Hashable(Get(e.fields, "state", Null))
  }

  function ErrorOf(e: Value): IntegrationError {
    if !IsErrorEntry(e) then IntegrationError(Null, Null, "")
    else
      IntegrationError(
        Get(e.fields, "entry_id", Str("")),
        Or(Get(e.fields, "title", Null), Or(Get(e.fields, "domain", Null), Str("Unknown integration"))),
        Get(e.fields, "state", Null).s)
  }

  ghost function IntegrationErrors(entries: Value): Parse<IntegrationError> {
    if entries.Arr? then Collect(IsBadEntry, IsErrorEntry, ErrorOf, entries.items) else Failed
  }

  method ParseIntegrationErrors(entries: Value) returns (r: Parse<IntegrationError>)
    ensures r == IntegrationErrors(entries)
  {
    if !entries.Arr? {
      return Failed;
    }
    var parsed: seq<IntegrationError> := [];
    var i := 0;
    while i < |entries.items|
      invariant 0 <= i <= |entries.items|
      invariant forall e :: e in entries.items[..i] ==> !IsBadEntry(e)
      invariant parsed == Map(ErrorOf, Filter(IsErrorEntry, entries.items[..i]))
    {
      var entry := entries.items[i];
      StepCollect(IsErrorEntry, ErrorOf, entries.items, i);
      i := i + 1;
      if !entry.Obj? {
        continue;
      }
      var state := Get(entry.fields, "state", Null);
      if !Hashable(state) {
        assert IsBadEntry(entry);
        return Failed;
      }
      if !state.Str? || state.s !in ERROR_STATES {
        continue;
      }
      var given := Or(Get(entry.fields, "title", Null), Get(entry.fields, "domain", Null));
      var name := Or(given, Str("Unknown integration"));
      parsed := parsed + [IntegrationError(Get(entry.fields, "entry_id", Str("")), name, state.s)];
    }
    assert entries.items[..i] == entries.items;
    r := Parsed(parsed);
  }

  // ---------------------------------------------------------------- homomorphism

  lemma CollectAppend<T>(bad: Value -> bool, keep: Value -> bool, item: Value -> T, a: seq<Value>, b: seq<Value>)
    ensures Collect(bad, keep, item, a + b) == Append(Collect(bad, keep, item, a), Collect(bad, keep, item, b))
  {
    FilterAppend(keep, a, b);
    MapAppend(item, Filter(keep, a), Filter(keep, b));
    assert forall e :: e in a + b <==> e in a || e in b;
  }

  /** A `repairs/list_issues` result holding these issues, whatever its other fields. */
  function WithIssues(other: map<string, Value>, issues: seq<Value>): Value {
    Obj(other["issues" := Arr(issues)])
  }

  /** Parsing a concatenation is concatenating the parses, and fails exactly when a half fails. */
  lemma ParsersAreHomomorphisms(a: seq<Value>, b: seq<Value>, other: map<string, Value>)
    ensures PendingUpdates(Arr(a + b)) == Append(PendingUpdates(Arr(a)), PendingUpdates(Arr(b)))
    ensures IntegrationErrors(Arr(a + b)) == Append(IntegrationErrors(Arr(a)), IntegrationErrors(Arr(b)))
    ensures RepairIssues(WithIssues(other, a + b))
         == Append(RepairIssues(WithIssues(other, a)), RepairIssues(WithIssues(other, b)))
  {
    CollectAppend(IsBadUpdate, IsUpdate, UpdateOf, a, b);
    CollectAppend(IsBadEntry, IsErrorEntry, ErrorOf, a, b);
    CollectAppend(IsBadIssue, IsOpenIssue, IssueOf, a, b);
  }

  lemma CollectIrrelevant<T>(bad: Value -> bool, keep: Value -> bool, item: Value -> T,
                             a: seq<Value>, noise: seq<Value>, b: seq<Value>)
    requires forall e :: e in noise ==> !bad(e) && !keep(e)
    ensures Collect(bad, keep, item, a + noise + b) == Collect(bad, keep, item, a + b)
  {
    CollectAppend(bad, keep, item, a + noise, b);
    CollectAppend(bad, keep, item, a, noise);
    CollectAppend(bad, keep, item, a, b);
    FilterNone(keep, noise);
  }

  /** Entries a loop neither keeps nor chokes on can be inserted anywhere. */
  lemma IrrelevantEntriesChangeNothing(a: seq<Value>, noise: seq<Value>, b: seq<Value>, other: map<string, Value>)
    ensures (forall e :: e in noise ==> !IsBadUpdate(e) && !IsUpdate(e))
        ==> PendingUpdates(Arr(a + noise + b)) == PendingUpdates(Arr(a + b))
    ensures (forall e :: e in noise ==> !IsOpenIssue(e))
        ==> RepairIssues(WithIssues(other, a + noise + b)) == RepairIssues(WithIssues(other, a + b))
    ensures (forall e :: e in noise ==> !IsBadEntry(e) && !IsErrorEntry(e))
        ==> IntegrationErrors(Arr(a + noise + b)) == IntegrationErrors(Arr(a + b))
  {
    if forall e :: e in noise ==> !IsBadUpdate(e) && !IsUpdate(e) {
      CollectIrrelevant(IsBadUpdate, IsUpdate, UpdateOf, a, noise, b);
    }
    if forall e :: e in noise ==> !IsBadEntry(e) && !IsErrorEntry(e) {
      CollectIrrelevant(IsBadEntry, IsErrorEntry, ErrorOf, a, noise, b);
    }
    if forall e :: e in noise ==> !IsOpenIssue(e) {
      CollectIrrelevant(IsBadIssue, IsOpenIssue, IssueOf, a, noise, b);
    }
  }
}
