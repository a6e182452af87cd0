/** What the three parsers make of what arrives, in the wire's own terms and without naming the parsers'
    own filters: which entries they keep, what they call them, and which content they fail on. */
module Entries {
  import opened Json
  import opened Sequences
  import opened Summary
  import opened Parsers

  /** This field of this object is there. */
  predicate HasField(v: Value, key: string) {
    v.Obj? && key in v.fields
  }

  /** It is there and not one of Python's false values. */
  predicate Given(v: Value, key: string) {
    HasField(v, key) && !Falsy(v.fields[key])
  }

  /** The object's own field, or this if it has none. */
  function Field(v: Value, key: string, otherwise: Value): Value {
    if HasField(v, key) then v.fields[key] else otherwise
  }

  /** What a parse by filter and map selects, for any equivalent description of the filter. */
  lemma CollectSelects<T>(bad: Value -> bool, keep: Value -> bool, item: Value -> T,
                          wanted: Value -> bool, describes: (T, Value) -> bool, entries: seq<Value>)
    returns (at: seq<int>)
    requires Collect(bad, keep, item, entries).Parsed?
    requires forall e :: keep(e) <==> wanted(e)
    requires forall e :: wanted(e) ==> describes(item(e), e)
    ensures Selects(entries, Collect(bad, keep, item, entries).items, wanted, describes, at)
  {
    at := FilterSelects(keep, item, describes, entries);
  }

  // ---------------------------------------------------------------- pending updates

  predicate StartsWithUpdate(s: string) {
    |s| >= 7 && s[..7] == "update."
  }

  predicate WantedUpdate(e: Value) {
    && HasField(e, "entity_id") && e.fields["entity_id"].Str? && StartsWithUpdate(e.fields["entity_id"].s)
    && HasField(e, "state") && e.fields["state"] == Str("on")
  }

  /** A wanted entry is called by its friendly name if it has a true one, and otherwise by its id. */
  predicate DescribesUpdate(u: UpdateItem, e: Value) {
    && WantedUpdate(e)
    && Str(u.entityId) == e.fields["entity_id"]
    && u.name == if HasField(e, "attributes") && Given(e.fields["attributes"], "friendly_name")
                 then e.fields["attributes"].fields["friendly_name"] else e.fields["entity_id"]
  }

  /** An id that is no text, or true attributes of a wanted entry that are no object. */
  predicate UnreadableUpdate(e: Value) {
    || (HasField(e, "entity_id") && !e.fields["entity_id"].Str?)
    || (WantedUpdate(e) && Given(e, "attributes") && !e.fields["attributes"].Obj?)
  }

  lemma UpdatesInPlainTerms(e: Value)
    ensures IsUpdate(e) <==> WantedUpdate(e)
    ensures IsBadUpdate(e) <==> UnreadableUpdate(e)
    ensures WantedUpdate(e) ==> DescribesUpdate(UpdateOf(e), e)
  {
    if e.Obj? {
      var attributes := Get(e.fields, "attributes", Null);
      TruthyExactly(attributes);
      if attributes.Obj? {
        TruthyExactly(Get(attributes.fields, "friendly_name", Null));
      }
    }
  }

  /** The list of updates fails exactly on a non-list or an unreadable entry, and otherwise describes, in
      order, exactly the wanted entries. */
  lemma PendingUpdatesExactly(v: Value)
    ensures PendingUpdates(v).Parsed? <==> v.Arr? && forall e :: e in v.items ==> !UnreadableUpdate(e)
    ensures PendingUpdates(v).Parsed? ==>
      exists at :: Selects(v.items, PendingUpdates(v).items, WantedUpdate, DescribesUpdate, at)
  {
    forall e ensures IsUpdate(e) <==> WantedUpdate(e)
             ensures IsBadUpdate(e) <==> UnreadableUpdate(e)
             ensures WantedUpdate(e) ==> DescribesUpdate(UpdateOf(e), e)
    {
      UpdatesInPlainTerms(e);
    }
    if PendingUpdates(v).Parsed? {
      var at := CollectSelects(IsBadUpdate, IsUpdate, UpdateOf, WantedUpdate, DescribesUpdate, v.items);
    }
  }

  // ---------------------------------------------------------------- repair issues

  predicate WantedIssue(e: Value) {
    e.Obj? && !Given(e, "ignored")
  }

  /** An issue is called by its translation key if that is true. */
  predicate DescribesIssue(i: RepairIssue, e: Value) {
    && WantedIssue(e)
    && i.issueId == Field(e, "issue_id", Str(""))
    && i.name == if Given(e, "translation_key") then e.fields["translation_key"] else Str("Unknown issue")
  }

  lemma IssuesInPlainTerms(e: Value)
    ensures IsOpenIssue(e) <==> WantedIssue(e)
    ensures WantedIssue(e) ==> DescribesIssue(IssueOf(e), e)
  {
    if e.Obj? {
      TruthyExactly(Get(e.fields, "ignored", Null));
      TruthyExactly(Get(e.fields, "translation_key", Null));
    }
  }

  /** The list of issues fails exactly when there is no such list, and otherwise describes, in order,
      exactly the issues not ignored. */
  lemma RepairIssuesExactly(v: Value)
    ensures RepairIssues(v).Parsed? <==> HasField(v, "issues") && v.fields["issues"].Arr?
    ensures RepairIssues(v).Parsed? ==>
      exists at :: Selects(v.fields["issues"].items, RepairIssues(v).items, WantedIssue, DescribesIssue, at)
  {
    forall e ensures IsOpenIssue(e) <==> WantedIssue(e)
             ensures WantedIssue(e) ==> DescribesIssue(IssueOf(e), e)
    {
      IssuesInPlainTerms(e);
    }
    if RepairIssues(v).Parsed? {
      var issues := v.fields["issues"].items;
      var at := CollectSelects(IsBadIssue, IsOpenIssue, IssueOf, WantedIssue, DescribesIssue, issues);
    }
  }

  // ---------------------------------------------------------------- integration errors

  predicate WantedEntry(e: Value) {
    && HasField(e, "state")
    && (|| e.fields["state"] == Str("setup_error") || e.fields["state"] == Str("setup_retry")
        || e.fields["state"] == Str("migration_error") || e.fields["state"] == Str("failed_unload"))
  }

  /** An integration is called by its title if that is true, or else by its domain if that is. */
  predicate DescribesEntry(i: IntegrationError, e: Value) {
    && WantedEntry(e)
    && i.entryId == Field(e, "entry_id", Str(""))
    && Str(i.state) == e.fields["state"]
    && i.name == if Given(e, "title") then e.fields["title"]
                 else if Given(e, "domain") then e.fields["domain"]
                 else Str("Unknown integration")
  }

  /** A state that cannot be looked up in a set of states. */
  predicate UnreadableEntry(e: Value) {
    HasField(e, "state") && (e.fields["state"].Arr? || e.fields["state"].Obj?)
  }

  lemma EntriesInPlainTerms(e: Value)
    ensures IsErrorEntry(e) <==> WantedEntry(e)
    ensures IsBadEntry(e) <==> UnreadableEntry(e)
    ensures WantedEntry(e) ==> DescribesEntry(ErrorOf(e), e)
  {
    if e.Obj? {
      TruthyExactly(Get(e.fields, "title", Null));
      TruthyExactly(Get(e.fields, "domain", Null));
    }
  }

  /** The list of integrations fails exactly on a non-list or an unreadable entry, and otherwise
      describes, in order, exactly the entries in one of the four error states. */
  lemma IntegrationErrorsExactly(v: Value)
    ensures IntegrationErrors(v).Parsed? <==> v.Arr? && forall e :: e in v.items ==> !UnreadableEntry(e)
    ensures IntegrationErrors(v).Parsed? ==>
      exists at :: Selects(v.items, IntegrationErrors(v).items, WantedEntry, DescribesEntry, at)
  {
    forall e ensures IsErrorEntry(e) <==> WantedEntry(e)
             ensures IsBadEntry(e) <==> UnreadableEntry(e)
             ensures WantedEntry(e) ==> DescribesEntry(ErrorOf(e), e)
    {
      EntriesInPlainTerms(e);
    }
    if IntegrationErrors(v).Parsed? {
      var at := CollectSelects(IsBadEntry, IsErrorEntry, ErrorOf, WantedEntry, DescribesEntry, v.items);
    }
  }

  // ---------------------------------------------------------------- names

  /** No parser ever yields an item with a false display name. */
  lemma NamesAreNeverEmpty(v: Value)
    ensures PendingUpdates(v).Parsed? ==> forall u :: u in PendingUpdates(v).items ==> !Falsy(u.name)
    ensures RepairIssues(v).Parsed? ==> forall i :: i in RepairIssues(v).items ==> !Falsy(i.name)
    ensures IntegrationErrors(v).Parsed? ==> forall i :: i in IntegrationErrors(v).items ==> !Falsy(i.name)
  {
    PendingUpdatesExactly(v);
    RepairIssuesExactly(v);
    IntegrationErrorsExactly(v);
    hide PendingUpdates, RepairIssues, IntegrationErrors;
  }
}
