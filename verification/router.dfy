/**
 * `route_transcription` and `process_entry_by_tag` of
 * jassist/voice_diary/route_transcription/route_transcription.py.
 *
 * A routing first looks for classifier entries in the tag (then the text)
 * with the strict parser. Without a database id it saves the transcription:
 * one row per entry found, or one row for the whole transcription. It then
 * dispatches each saved entry, each parsed entry (re-parsing with both
 * parsers when nothing was found before), or the transcription itself, to
 * the handler its tag names, and summarises what the handlers reported.
 */
module Router {
  import opened Wrappers
  import opened Text
  import opened StrictParser
  import opened ComplexParser
  import opened Collaborators
  import opened DbInteractions

  // ---------------------------------------------------------------------
  // process_entry_by_tag

  /** The names `process_entry_by_tag` tests a lower-cased tag against
      (lines 302-313), in the order it tests them, with the handler each selects. */
  const HandlerNames: seq<(string, Category)> := [
    ("calendar", Calendar), ("diary", Diary), ("to_do", Todo), ("todo", Todo),
    ("accounts", Accounts), ("account", Accounts), ("contacts", Contacts),
    ("contact", Contacts), ("entities", Entities), ("entity", Entities)]

  /** The category of the first name in `names` equal to `t`. */
  function Lookup(t: string, names: seq<(string, Category)>): Option<Category> {
    if names == [] then None
    else if t == names[0].0 then Some(names[0].1)
    else Lookup(t, names[1..])
  }

  /** The handler a lower-cased tag selects; any other tag selects none. */
  function CategoryOf(t: string): Option<Category> {
    Lookup(t, HandlerNames)
  }

  lemma LookupCons(t: string, name: string, c: Category, rest: seq<(string, Category)>)
    ensures Lookup(t, [(name, c)] + rest) == if t == name then Some(c) else Lookup(t, rest)
  {
    assert ([(name, c)] + rest)[1..] == rest;
  }

  /** The tests of lines 302-317, one after the other. */
  lemma CategoryOfChain(t: string)
    ensures CategoryOf(t) ==
      if t == "calendar" then Some(Calendar)
      else if t == "diary" then Some(Diary)
      else if t == "to_do" || t == "todo" then Some(Todo)
      else if t == "accounts" || t == "account" then Some(Accounts)
      else if t == "contacts" || t == "contact" then Some(Contacts)
      else if t == "entities" || t == "entity" then Some(Entities)
      else None
  {
    var n9 := [("entity", Entities)] + [];
    var n8 := [("entities", Entities)] + n9;
    var n7 := [("contact", Contacts)] + n8;
    var n6 := [("contacts", Contacts)] + n7;
    var n5 := [("account", Accounts)] + n6;
    var n4 := [("accounts", Accounts)] + n5;
    var n3 := [("todo", Todo)] + n4;
    var n2 := [("to_do", Todo)] + n3;
    var n1 := [("diary", Diary)] + n2;
    var n0 := [("calendar", Calendar)] + n1;
    assert HandlerNames == n0;
    LookupCons(t, "calendar", Calendar, n1);
    LookupCons(t, "diary", Diary, n2);
    LookupCons(t, "to_do", Todo, n3);
    LookupCons(t, "todo", Todo, n4);
    LookupCons(t, "accounts", Accounts, n5);
    LookupCons(t, "account", Accounts, n6);
    LookupCons(t, "contacts", Contacts, n7);
    LookupCons(t, "contact", Contacts, n8);
    LookupCons(t, "entities", Entities, n9);
    LookupCons(t, "entity", Entities, []);
  }

  /** The names each category answers to. */
  function Aliases(c: Category): set<string> {
    match c
    case Calendar => {"calendar"}
    case Diary => {"diary"}
    case Todo => {"to_do", "todo"}
    case Accounts => {"accounts", "account"}
    case Contacts => {"contacts", "contact"}
    case Entities => {"entities", "entity"}
  }

  /** A tag selects a category exactly when its lower-cased form is one of
      that category's names, and selects none when it is a name of no
      category. */
  lemma CategoryOfIff(t: string, c: Category)
    ensures CategoryOf(t) == Some(c) <==> t in Aliases(c)
    ensures CategoryOf(t).None? <==> forall d: Category :: t !in Aliases(d)
  {
    CategoryOfChain(t);
    if CategoryOf(t).None? {
      forall d: Category ensures t !in Aliases(d) {
      }
    } else {
      var x := CategoryOf(t).value;
      assert t in Aliases(x);
      if t in Aliases(c) {
        AliasesDisjoint(t, c, x);
      }
    }
  }

  /** No name belongs to two categories. */
  lemma AliasesDisjoint(t: string, c: Category, d: Category)
    requires t in Aliases(c) && t in Aliases(d)
    ensures c == d
  {
    CategoryOfChain(t);
    AliasSelects(t, c);
    AliasSelects(t, d);
  }

  lemma AliasSelects(t: string, c: Category)
    requires t in Aliases(c)
    ensures CategoryOf(t) == Some(c)
  {
    CategoryOfChain(t);
  }

  /** The handler call `process_entry_by_tag(text, tag, db_id)` makes, if any. */
  function HandlerCallFor(text: string, tag: string, dbId: Option<int>): Option<HandlerCall> {
    match CategoryOf(Lower(tag))
    case Some(c) => Some(HandlerCall(c, text, dbId))
    case None => None
  }

  function CallsOf(call: Option<HandlerCall>): (r: seq<HandlerCall>)
    ensures |r| <= 1
  {
    if call.Some? then [call.value] else []
  }

  /** What `process_entry_by_tag` returns when it is the `m`-th handler call:
      the handler's answer, or True when no handler is selected. */
  function Outcome(answer: (nat, HandlerCall) -> bool, m: nat, call: Option<HandlerCall>): bool {
    if call.Some? then answer(m, call.value) else true
  }

  /** `process_entry_by_tag(text, tag, db_id)`. */
  method ProcessEntryByTag(handlers: CategoryHandlers, text: string, tag: string, dbId: Option<int>) returns (ok: bool)
    modifies handlers
    ensures handlers.calls == old(handlers.calls) + CallsOf(HandlerCallFor(text, tag, dbId))
    ensures ok == Outcome(handlers.answer, |old(handlers.calls)|, HandlerCallFor(text, tag, dbId))
  {
    var tagLower := Lower(tag);
    CategoryOfChain(tagLower);
    if tagLower == "calendar" {
      ok := handlers.Handle(HandlerCall(Calendar, text, dbId));
    } else if tagLower == "diary" {
      ok := handlers.Handle(HandlerCall(Diary, text, dbId));
    } else if tagLower == "to_do" || tagLower == "todo" {
      ok := handlers.Handle(HandlerCall(Todo, text, dbId));
    } else if tagLower == "accounts" || tagLower == "account" {
      ok := handlers.Handle(HandlerCall(Accounts, text, dbId));
    } else if tagLower == "contacts" || tagLower == "contact" {
      ok := handlers.Handle(HandlerCall(Contacts, text, dbId));
    } else if tagLower == "entities" || tagLower == "entity" {
      ok := handlers.Handle(HandlerCall(Entities, text, dbId));
    } else {
      ok := true;
    }
  }

  /** The tag's case does not matter: a tag and its lower-cased form select
      the same handler with the same arguments. */
  lemma HandlerCallIgnoresCase(text: string, tag: string, dbId: Option<int>)
    ensures HandlerCallFor(text, tag, dbId) == HandlerCallFor(text, Lower(tag), dbId)
    ensures HandlerCallFor(text, tag, dbId).Some? ==> HandlerCallFor(text, tag, dbId).value.text == text
    ensures HandlerCallFor(text, tag, dbId).Some? ==> HandlerCallFor(text, tag, dbId).value.dbId == dbId
  {
    assert IsLower(Lower(tag));
    LowerOfLower(Lower(tag));
  }

  // ---------------------------------------------------------------------
  // Dispatching a list of entries.

  /** One `process_entry_by_tag` call of a multi-entry routing: the record id
      (present only for saved entries), the id passed on, the text and the tag. */
  datatype Dispatch = Dispatch(recordId: Option<int>, dbId: Option<int>, text: string, tag: string)

  /** One element of `result["processed_entries"]`. */
  datatype ProcessedEntry = ProcessedEntry(id: Option<int>, text: string, tag: string, success: bool)

  /** `entry_text[:50] + "..." if len(entry_text) > 50 else entry_text`. */
  function Truncate50(s: string): (r: string)
    ensures |s| <= 50 ==> r == s
    ensures |s| > 50 ==> |r| == 53 && r[..50] == s[..50] && r[50..] == "..."
  {
    if |s| > 50 then s[..50] + "..." else s
  }

  function DispatchCall(d: Dispatch): Option<HandlerCall> {
    HandlerCallFor(d.text, d.tag, d.dbId)
  }

  /** The handler call of each dispatch, if any. */
  function CallsFor(ds: seq<Dispatch>): (cs: seq<Option<HandlerCall>>)
    ensures |cs| == |ds| && forall k :: 0 <= k < |ds| ==> cs[k] == DispatchCall(ds[k])
  {
    seq(|ds|, k requires 0 <= k < |ds| => DispatchCall(ds[k]))
  }

  /** The calls made, in order, when each turn makes the call it names. */
  function Made(cs: seq<Option<HandlerCall>>): (r: seq<HandlerCall>)
    ensures |r| <= |cs|
  {
    if cs == [] then [] else Made(cs[..|cs| - 1]) + CallsOf(cs[|cs| - 1])
  }

  /** What each turn reports, the handlers' log having `m` calls before. */
  function Answers(answer: (nat, HandlerCall) -> bool, m: nat, cs: seq<Option<HandlerCall>>): (r: seq<bool>)
    ensures |r| == |cs|
  {
    if cs == [] then []
    else
      var front := cs[..|cs| - 1];
      Answers(answer, m, front) + [Outcome(answer, m + |Made(front)|, cs[|cs| - 1])]
  }

  /** Every handler call a list of dispatches makes, in order. */
  function DispatchCalls(ds: seq<Dispatch>): (r: seq<HandlerCall>)
    ensures |r| <= |ds|
  {
    Made(CallsFor(ds))
  }

  /** What each dispatch reports, the handlers' log having `m` calls before. */
  function DispatchResults(answer: (nat, HandlerCall) -> bool, m: nat, ds: seq<Dispatch>): (r: seq<bool>)
    ensures |r| == |ds|
  {
    Answers(answer, m, CallsFor(ds))
  }

  /** The record of one dispatch that reported `ok`. */
  function Record(d: Dispatch, ok: bool): ProcessedEntry {
    ProcessedEntry(d.recordId, Truncate50(d.text), d.tag, ok)
  }

  function Records(ds: seq<Dispatch>, results: seq<bool>): (r: seq<ProcessedEntry>)
    requires |results| == |ds|
    ensures |r| == |ds|
    ensures forall k :: 0 <= k < |r| ==> r[k] == Record(ds[k], results[k])
  {
    seq(|ds|, k requires 0 <= k < |ds| => Record(ds[k], results[k]))
  }

  /** How many handlers reported success. */
  function CountTrue(bs: seq<bool>): (n: nat)
    ensures n <= |bs|
  {
    if bs == [] then 0 else CountTrue(bs[..|bs| - 1]) + (if bs[|bs| - 1] then 1 else 0)
  }

  lemma {:induction false} CountTrueIff(bs: seq<bool>)
    ensures CountTrue(bs) > 0 <==> exists k :: 0 <= k < |bs| && bs[k]
    ensures CountTrue(bs) == |bs| <==> forall k :: 0 <= k < |bs| ==> bs[k]
    decreases |bs|
  {
    if bs != [] {
      var front := bs[..|bs| - 1];
      CountTrueIff(front);
      forall k | 0 <= k < |front| ensures front[k] == bs[k] { }
      if CountTrue(front) > 0 {
        var k :| 0 <= k < |front| && front[k];
        assert bs[k];
      }
    }
  }

  lemma AnswersStep(answer: (nat, HandlerCall) -> bool, m: nat, cs: seq<Option<HandlerCall>>, i: nat)
    requires i < |cs|
    ensures Made(cs[..i + 1]) == Made(cs[..i]) + CallsOf(cs[i])
    ensures Answers(answer, m, cs[..i + 1])
      == Answers(answer, m, cs[..i]) + [Outcome(answer, m + |Made(cs[..i])|, cs[i])]
  {
    assert cs[..i + 1][..i] == cs[..i];
  }

  lemma CountStep(bs: seq<bool>, i: nat)
    requires i < |bs|
    ensures CountTrue(bs[..i + 1]) == CountTrue(bs[..i]) + (if bs[i] then 1 else 0)
  {
    assert bs[..i + 1][..i] == bs[..i];
  }

  /** The loops of lines 159-178 and 192-211: one `process_entry_by_tag` per
      dispatch, recording each answer and counting the successes. */
  method DispatchAll(handlers: CategoryHandlers, ds: seq<Dispatch>) returns (processed: seq<ProcessedEntry>, successCount: nat)
    modifies handlers
    ensures
      var results := DispatchResults(handlers.answer, |old(handlers.calls)|, ds);
      && handlers.calls == old(handlers.calls) + DispatchCalls(ds)
      && processed == Records(ds, results)
      && successCount == CountTrue(results)
  {
    ghost var m := |handlers.calls|;
    ghost var cs := CallsFor(ds);
    ghost var results := Answers(handlers.answer, m, cs);
    processed, successCount := [], 0;
    for i := 0 to |ds|
      invariant handlers.calls == old(handlers.calls) + Made(cs[..i])
      invariant processed == Records(ds[..i], results[..i])
      invariant successCount == CountTrue(results[..i])
    {
      ghost var before := |handlers.calls|;
      var ok := DispatchOne(handlers, ds[i]);
      DispatchAllStep(handlers.answer, m, cs, i, before, ok);
      AppendAssociates(old(handlers.calls), Made(cs[..i]), CallsOf(cs[i]));
      RecordsStep(ds, results, i);
      processed := processed + [Record(ds[i], ok)];
      if ok {
        successCount := successCount + 1;
      }
    }
    assert ds[..|ds|] == ds && cs[..|ds|] == cs && results[..|ds|] == results;
  }

  /** What one turn of the dispatch loop adds to the calls and the count,
      and what it reports. */
  lemma DispatchAllStep(answer: (nat, HandlerCall) -> bool, m: nat, cs: seq<Option<HandlerCall>>, i: nat, before: nat, ok: bool)
    requires i < |cs| && before == m + |Made(cs[..i])|
    requires ok == Outcome(answer, before, cs[i])
    ensures
      var results := Answers(answer, m, cs);
      && Made(cs[..i + 1]) == Made(cs[..i]) + CallsOf(cs[i])
      && results[i] == ok
      && CountTrue(results[..i + 1]) == CountTrue(results[..i]) + (if ok then 1 else 0)
  {
    var results := Answers(answer, m, cs);
    AnswersStep(answer, m, cs, i);
    AnswerAt(answer, m, cs, i, before);
    CountStep(results, i);
  }

  lemma RecordsStep(ds: seq<Dispatch>, rs: seq<bool>, i: nat)
    requires |rs| == |ds| && i < |ds|
    ensures Records(ds[..i + 1], rs[..i + 1]) == Records(ds[..i], rs[..i]) + [Record(ds[i], rs[i])]
  {
    var r0, r1 := Records(ds[..i], rs[..i]), Records(ds[..i + 1], rs[..i + 1]);
    forall k | 0 <= k < |r1| ensures r1[k] == (r0 + [Record(ds[i], rs[i])])[k] {
      if k < i {
        assert r1[k] == Record(ds[k], rs[k]) == r0[k];
      }
    }
  }

  /** One turn of those loops. */
  method DispatchOne(handlers: CategoryHandlers, d: Dispatch) returns (ok: bool)
    modifies handlers
    ensures handlers.calls == old(handlers.calls) + CallsOf(DispatchCall(d))
    ensures ok == Outcome(handlers.answer, |old(handlers.calls)|, DispatchCall(d))
  {
    ok := ProcessEntryByTag(handlers, d.text, d.tag, d.dbId);
  }

  /** The `i`-th turn reports what its own handler call answers. */
  lemma AnswerAt(answer: (nat, HandlerCall) -> bool, m: nat, cs: seq<Option<HandlerCall>>, i: nat, before: nat)
    requires i < |cs| && before == m + |Made(cs[..i])|
    ensures Answers(answer, m, cs)[i] == Outcome(answer, before, cs[i])
  {
    AnswersStep(answer, m, cs, i);
    AnswersPrefix(answer, m, cs, i + 1);
    assert Answers(answer, m, cs[..i + 1])[i] == Outcome(answer, before, cs[i]);
  }

  lemma {:induction false} AnswersPrefix(answer: (nat, HandlerCall) -> bool, m: nat, cs: seq<Option<HandlerCall>>, j: nat)
    requires j <= |cs|
    ensures Answers(answer, m, cs[..j]) == Answers(answer, m, cs)[..j]
    decreases |cs|
  {
    if j < |cs| {
      var front := cs[..|cs| - 1];
      assert cs[..j] == front[..j];
      AnswersPrefix(answer, m, front, j);
    } else {
      assert cs[..j] == cs;
    }
  }

  // ---------------------------------------------------------------------
  // route_transcription

  datatype Status = Success | Failed

  /** The dictionary `route_transcription` returns; `successCount` and
      `message` are None when the key is absent. */
  datatype RoutingResult = RoutingResult(
    status: Status,
    dbId: Option<int>,
    tag: string,
    additionalProcessing: bool,
    entriesProcessed: nat,
    processedEntries: seq<ProcessedEntry>,
    successCount: Option<nat>,
    message: Option<string>)

  const SaveFailedMessage: string := "Database save failed"

  /** The result of lines 116-119. */
  function SaveFailed(tag: string): RoutingResult {
    RoutingResult(Failed, None, tag, false, 0, [], None, Some(SaveFailedMessage))
  }

  /** The summary of lines 180-184 and 213-217. */
  function MultiResult(dbId: Option<int>, tag: string, ds: seq<Dispatch>, results: seq<bool>): RoutingResult
    requires |results| == |ds|
  {
    var n := CountTrue(results);
    RoutingResult(if n > 0 then Success else Failed, dbId, tag, |ds| > 0, |ds|, Records(ds, results), Some(n), None)
  }

  /** The summary of lines 220-224. */
  function SingleResult(dbId: Option<int>, tag: string, ok: bool): RoutingResult {
    RoutingResult(if ok then Success else Failed, dbId, tag, ok, 1, [], Some(if ok then 1 else 0), None)
  }

  /** The entries found before saving (lines 58-71): the strict parser on the
      tag, or else on the text. */
  function InputEntries(text: string, tag: string): seq<Entry> {
    var fromTag := if HoldsEntries(tag) then StrictEntries(tag) else [];
    if fromTag == [] && HoldsEntries(text) then StrictEntries(text) else fromTag
  }

  /** The entries found by the second look (lines 127-150): the strict parser
      and then the fallback parser on the tag, or else on the text. */
  function FallbackEntries(text: string, tag: string): seq<Entry> {
    var fromTag :=
      if HoldsEntries(tag) then
        (if StrictEntries(tag) != [] then StrictEntries(tag) else ComplexEntries(tag))
      else [];
    if fromTag == [] && HoldsEntries(text) then
      (if StrictEntries(text) != [] then StrictEntries(text) else ComplexEntries(text))
    else fromTag
  }

  /** The ids of the saves that returned a truthy id, in order (lines 94-95). */
  function TruthyIds(os: seq<SaveOutcome>): (r: seq<int>)
    ensures |r| <= |os|
    ensures forall k :: 0 <= k < |r| ==> r[k] != 0
  {
    if os == [] then []
    else TruthyIds(os[..|os| - 1]) + (if Truthy(os[|os| - 1]) then [os[|os| - 1].id] else [])
  }

  /** Saved entry `i` is dispatched with the `i`-th truthy id (lines 159-168). */
  function SavedDispatches(ids: seq<int>, entries: seq<Entry>): (r: seq<Dispatch>)
    ensures |r| == if |ids| <= |entries| then |ids| else |entries|
  {
    var n := if |ids| <= |entries| then |ids| else |entries|;
    seq(n, i requires 0 <= i < n => Dispatch(Some(ids[i]), Some(ids[i]), entries[i].text, entries[i].tag))
  }

  /** Each parsed entry is dispatched with the one routing id, its tag stripped
      (lines 192-202). */
  function EntryDispatches(entries: seq<Entry>, dbId: Option<int>): (r: seq<Dispatch>)
    ensures |r| == |entries|
  {
    seq(|entries|, i requires 0 <= i < |entries| => Dispatch(None, dbId, entries[i].text, Strip(entries[i].tag)))
  }

  /** Everything a routing depends on besides its arguments: whether the store
      is available, how it and the handlers answer, and how many calls each
      has received before. */
  datatype Oracles = Oracles(
    available: bool,
    saves: (nat, SaveCall) -> SaveOutcome,
    n0: nat,
    handle: (nat, HandlerCall) -> bool,
    m0: nat)

  /** A routing: its result, the save calls made and the handler calls made. */
  datatype Routing = Routing(result: RoutingResult, saves: seq<SaveCall>, handled: seq<HandlerCall>)

  /** The single save of lines 107-113 when no entries were found: the saves
      it makes and the id it gives back. */
  function SingleSaveCalls(o: Oracles, text: string, tag: string): seq<SaveCall> {
    if o.available then [SaveCall(text, Some(tag))] else []
  }

  function SingleSaveId(o: Oracles, text: string, tag: string): Option<int> {
    if !o.available then None
    else
      IdOf(o.saves(o.n0, SaveCall(text, Some(tag))))
  }

  /** The saves of lines 79-99: one per entry found before saving. */
  function EntrySaveCalls(o: Oracles, entries: seq<Entry>): seq<SaveCall> {
    if o.available then EntrySaves(entries) else []
  }

  /** Lines 121-224, once the routing has the id `dbId`: dispatch the parsed
      entries, or else the transcription itself. */
  function Dispatched(handle: (nat, HandlerCall) -> bool, m0: nat, text: string, tag: string, dbId: Option<int>, input: seq<Entry>): (r: Routing) {
    var entries := if input != [] then input else FallbackEntries(text, tag);
    if entries != [] then
      var ds := EntryDispatches(entries, dbId);
      Routing(MultiResult(dbId, tag, ds, DispatchResults(handle, m0, ds)), [], DispatchCalls(ds))
    else
      var call := HandlerCallFor(text, tag, dbId);
      Routing(SingleResult(dbId, tag, Outcome(handle, m0, call)), [], CallsOf(call))
  }

  /** What `route_transcription(text, file_path, tag, db_id=dbId)` does. */
  function Route(o: Oracles, text: string, tag: string, dbId: Option<int>): Routing {
    var input := InputEntries(text, tag);
    if dbId.Some? then
      Dispatched(o.handle, o.m0, text, tag, dbId, input)
    else if input != [] then
      var calls := EntrySaveCalls(o, input);
      var ids := TruthyIds(Outcomes(o.saves, o.n0, calls));
      if ids == [] then Routing(SaveFailed(tag), calls, [])
      else
        var ds := SavedDispatches(ids, input);
        Routing(MultiResult(Some(ids[0]), tag, ds, DispatchResults(o.handle, o.m0, ds)), calls, DispatchCalls(ds))
    else
      var calls := SingleSaveCalls(o, text, tag);
      var id := SingleSaveId(o, text, tag);
      if id.None? then Routing(SaveFailed(tag), calls, [])
      else
        var r := Dispatched(o.handle, o.m0, text, tag, id, input);
        Routing(r.result, calls, r.handled)
  }

  // ---------------------------------------------------------------------
  // The phases of route_transcription as methods.

  lemma OneSave(os: seq<SaveOutcome>)
    requires |os| == 1
    ensures Attempted(os) == 1
    ensures SaveReturn(os) == IdOf(os[0])
  {
    assert os[..0] == [];
    if !os[0].Raised? {
      SingleSave(os);
    }
  }

  /** The id a save reports to the router: its id when truthy, else None. */
  function IdOf(o: SaveOutcome): Option<int> {
    if Truthy(o) then Some(o.id) else None
  }

  /** `save_to_database(text, tag=tag)` when the tag does not split the
      transcription: at most one save call, and its truthy id. */
  method SaveOnce(store: TranscriptionStore, text: string, tag: string) returns (id: Option<int>)
    requires PlannedSaves(text, Some(tag)) == [SaveCall(text, Some(tag))]
    modifies store
    ensures !store.available ==> store.log == old(store.log) && id.None?
    ensures store.available ==>
      && store.log == old(store.log) + [SaveCall(text, Some(tag))]
      && id == IdOf(store.answer(|old(store.log)|, SaveCall(text, Some(tag))))
  {
    ghost var before := |store.log|;
    id := SaveToDatabase(store, text, Some(tag));
    if store.available {
      OneSave(Outcomes(store.answer, before, [SaveCall(text, Some(tag))]));
    }
  }

  lemma TruthyIdsStep(os: seq<SaveOutcome>, i: nat)
    requires i < |os|
    ensures TruthyIds(os[..i + 1]) == TruthyIds(os[..i]) + (if Truthy(os[i]) then [os[i].id] else [])
  {
    assert os[..i + 1][..i] == os[..i];
  }

  /** The loop of lines 81-98: `save_to_database` once per entry found,
      keeping the truthy ids. */
  method SaveEntries(store: TranscriptionStore, entries: seq<Entry>) returns (savedIds: seq<int>)
    requires forall k :: 0 <= k < |entries| ==> StrictShape(entries[k])
    modifies store
    ensures
      var calls := if store.available then EntrySaves(entries) else [];
      && store.log == old(store.log) + calls
      && savedIds == TruthyIds(Outcomes(store.answer, |old(store.log)|, calls))
  {
    ghost var n0 := |store.log|;
    ghost var calls := if store.available then EntrySaves(entries) else [];
    ghost var os := Outcomes(store.answer, n0, calls);
    savedIds := [];
    for i := 0 to |entries|
      invariant store.available ==> store.log == old(store.log) + calls[..i] && savedIds == TruthyIds(os[..i])
      invariant !store.available ==> store.log == old(store.log) && savedIds == []
    {
      EntrySaveIsSingle(entries[i]);
      ghost var before := |store.log|;
      var entryId := SaveOnce(store, entries[i].text, entries[i].tag);
      if store.available {
        SaveEntriesStep(store.answer, n0, entries, i, before, entryId);
        AppendAssociates(old(store.log), calls[..i], [SaveCall(entries[i].text, Some(entries[i].tag))]);
      }
      if entryId.Some? && entryId.value != 0 {
        savedIds := savedIds + [entryId.value];
      }
    }
    if store.available {
      assert calls[..|entries|] == calls && os[..|entries|] == os;
    }
  }

  /** What one turn of the save loop adds to the calls and to the ids kept. */
  lemma SaveEntriesStep(answer: (nat, SaveCall) -> SaveOutcome, n0: nat, entries: seq<Entry>, i: nat, before: nat, entryId: Option<int>)
    requires i < |entries| && before == n0 + i
    requires entryId == IdOf(answer(before, SaveCall(entries[i].text, Some(entries[i].tag))))
    ensures
      var calls := EntrySaves(entries);
      var os := Outcomes(answer, n0, calls);
      && calls[..i + 1] == calls[..i] + [SaveCall(entries[i].text, Some(entries[i].tag))]
      && TruthyIds(os[..i + 1]) == TruthyIds(os[..i]) + (if entryId.Some? && entryId.value != 0 then [entryId.value] else [])
  {
    var calls := EntrySaves(entries);
    var os := Outcomes(answer, n0, calls);
    assert calls[..i + 1] == calls[..i] + [calls[i]];
    assert os[i] == answer(before, calls[i]);
    TruthyIdsStep(os, i);
  }

  /** The second look of lines 127-150. */
  method Reparse(text: string, tag: string) returns (entries: seq<Entry>)
    ensures entries == FallbackEntries(text, tag)
  {
    entries := [];
    if tag != [] && Contains(tag, "text:") && Contains(tag, "tag:") {
      entries := ParseLlmResponse(tag);
      if entries == [] {
        entries := ParseComplexLlmResponse(tag);
      }
    }
    if entries == [] && text != [] && Contains(text, "text:") && Contains(text, "tag:") {
      entries := ParseLlmResponse(text);
      if entries == [] {
        entries := ParseComplexLlmResponse(text);
      }
    }
  }

  /** The entries found before saving, lines 58-71. */
  method EntriesFromInput(text: string, tag: string) returns (entries: seq<Entry>)
    ensures entries == InputEntries(text, tag)
    ensures forall k :: 0 <= k < |entries| ==> StrictShape(entries[k])
  {
    entries := [];
    if tag != [] && Contains(tag, "text:") && Contains(tag, "tag:") {
      entries := ParseLlmResponse(tag);
    }
    if entries == [] && text != [] && Contains(text, "text:") && Contains(text, "tag:") {
      entries := ParseLlmResponse(text);
    }
  }

  /** Lines 121-224 once the routing has an id: the second look for entries
      when none was found, then the dispatch. */
  method DispatchRouting(handlers: CategoryHandlers, text: string, tag: string, dbId: Option<int>, input: seq<Entry>)
    returns (result: RoutingResult)
    modifies handlers
    ensures
      var r := Dispatched(handlers.answer, |old(handlers.calls)|, text, tag, dbId, input);
      && result == r.result
      && handlers.calls == old(handlers.calls) + r.handled
  {
    var entries := input;
    if entries == [] {
      entries := Reparse(text, tag);
    }
    if entries != [] {
      var ds := EntryDispatches(entries, dbId);
      var processed, successCount := DispatchAll(handlers, ds);
      result := RoutingResult(if successCount > 0 then Success else Failed, dbId, tag, |ds| > 0, |ds|, processed, Some(successCount), None);
    } else {
      var success := ProcessEntryByTag(handlers, text, tag, dbId);
      result := RoutingResult(if success then Success else Failed, dbId, tag, success, 1, [], Some(if success then 1 else 0), None);
    }
  }

  /** `route_transcription(text, file_path, tag, duration, model_used, db_id)`. */
  method RouteTranscription(store: TranscriptionStore, handlers: CategoryHandlers, text: string, tag: string, dbId: Option<int>)
    returns (result: RoutingResult)
    modifies store, handlers
    ensures
      var r := Route(Oracles(store.available, store.answer, |old(store.log)|, handlers.answer, |old(handlers.calls)|), text, tag, dbId);
      && result == r.result
      && store.log == old(store.log) + r.saves
      && handlers.calls == old(handlers.calls) + r.handled
  {
    ghost var o := Oracles(store.available, store.answer, |store.log|, handlers.answer, |handlers.calls|);
    var input := EntriesFromInput(text, tag);
    var id := dbId;
    if dbId.None? {
      if input != [] {
        var savedIds := SaveEntries(store, input);
        if savedIds != [] {
          var ds := SavedDispatches(savedIds, input);
          var processed, successCount := DispatchAll(handlers, ds);
          assert Route(o, text, tag, dbId)
              == Routing(MultiResult(Some(savedIds[0]), tag, ds, DispatchResults(o.handle, o.m0, ds)), EntrySaveCalls(o, input), DispatchCalls(ds));
          return RoutingResult(if successCount > 0 then Success else Failed, Some(savedIds[0]), tag, |ds| > 0, |ds|, processed, Some(successCount), None);
        }
        assert Route(o, text, tag, dbId) == Routing(SaveFailed(tag), EntrySaveCalls(o, input), []);
        return SaveFailed(tag);
      }
      id := SaveOnce(store, text, tag);
      assert id == SingleSaveId(o, text, tag);
      if id.None? {
        assert Route(o, text, tag, dbId) == Routing(SaveFailed(tag), SingleSaveCalls(o, text, tag), []);
        return SaveFailed(tag);
      }
    }
    result := DispatchRouting(handlers, text, tag, id, input);
  }

  // ---------------------------------------------------------------------
  // Properties of a routing.

  /** The failure message appears only when no id could be obtained: the
      routing then calls no handler and reports nothing processed. */
  lemma SaveFailureIsTerminal(o: Oracles, text: string, tag: string, dbId: Option<int>)
    ensures
      var r := Route(o, text, tag, dbId);
      r.result.message.Some? ==>
        && dbId.None?
        && r.result == SaveFailed(tag)
        && r.handled == []
  {
  }

  /** With an unavailable store nothing is saved and the routing fails
      before any handler runs. */
  lemma UnavailableStoreFails(o: Oracles, text: string, tag: string)
    requires !o.available
    ensures Route(o, text, tag, None) == Routing(SaveFailed(tag), [], [])
  {
    var input := InputEntries(text, tag);
    if input != [] {
      assert Outcomes(o.saves, o.n0, []) == [];
    }
  }

  /** Given an id, a routing saves nothing, never fails for want of one,
      reports that id and passes it to every handler it calls. */
  lemma GivenIdIsUsed(o: Oracles, text: string, tag: string, id: int)
    ensures
      var r := Route(o, text, tag, Some(id));
      && r.saves == []
      && r.result.message.None?
      && r.result.dbId == Some(id)
      && forall k :: 0 <= k < |r.handled| ==> r.handled[k].dbId == Some(id)
  {
    DispatchedUsesId(o.handle, o.m0, text, tag, Some(id), InputEntries(text, tag));
  }

  lemma DispatchedUsesId(handle: (nat, HandlerCall) -> bool, m0: nat, text: string, tag: string, dbId: Option<int>, input: seq<Entry>)
    ensures
      var r := Dispatched(handle, m0, text, tag, dbId, input);
      && r.saves == []
      && r.result.message.None?
      && r.result.dbId == dbId
      && forall k :: 0 <= k < |r.handled| ==> r.handled[k].dbId == dbId
  {
    var entries := if input != [] then input else FallbackEntries(text, tag);
    if entries != [] {
      var ds := EntryDispatches(entries, dbId);
      DispatchCallsUseId(ds, dbId);
      assert Dispatched(handle, m0, text, tag, dbId, input)
          == Routing(MultiResult(dbId, tag, ds, DispatchResults(handle, m0, ds)), [], DispatchCalls(ds));
    } else {
      var call := HandlerCallFor(text, tag, dbId);
      assert Dispatched(handle, m0, text, tag, dbId, input)
          == Routing(SingleResult(dbId, tag, Outcome(handle, m0, call)), [], CallsOf(call));
    }
  }

  lemma DispatchCallsUseId(ds: seq<Dispatch>, id: Option<int>)
    requires forall k :: 0 <= k < |ds| ==> ds[k].dbId == id
    ensures forall k :: 0 <= k < |DispatchCalls(ds)| ==> DispatchCalls(ds)[k].dbId == id
  {
    var cs := CallsFor(ds);
    forall k | 0 <= k < |cs| && cs[k].Some? ensures cs[k].value.dbId == id {
      assert cs[k] == DispatchCall(ds[k]);
    }
    MadeUseId(cs, id);
  }

  lemma {:induction false} MadeUseId(cs: seq<Option<HandlerCall>>, id: Option<int>)
    requires forall k :: 0 <= k < |cs| && cs[k].Some? ==> cs[k].value.dbId == id
    ensures forall k :: 0 <= k < |Made(cs)| ==> Made(cs)[k].dbId == id
    decreases |cs|
  {
    if cs != [] {
      var front := cs[..|cs| - 1];
      forall k | 0 <= k < |front| && front[k].Some? ensures front[k].value.dbId == id {
        assert front[k] == cs[k];
      }
      MadeUseId(front, id);
    }
  }

  /** What a summary promises about itself: success exactly when some
      handler succeeded, the failure message exactly when no count is
      reported, and no more successes than entries. */
  predicate Coherent(r: RoutingResult) {
    && (r.status == Success <==> r.successCount.Some? && r.successCount.value > 0)
    && (r.status == Success ==> r.additionalProcessing)
    && (r.successCount.Some? ==> r.successCount.value <= r.entriesProcessed)
    && (r.message.None? <==> r.successCount.Some?)
  }

  lemma CoherentResults(dbId: Option<int>, tag: string, ds: seq<Dispatch>, results: seq<bool>, ok: bool)
    requires |results| == |ds|
    ensures Coherent(MultiResult(dbId, tag, ds, results))
    ensures Coherent(SingleResult(dbId, tag, ok))
    ensures Coherent(SaveFailed(tag))
  {
  }

  lemma DispatchedCoherent(handle: (nat, HandlerCall) -> bool, m0: nat, text: string, tag: string, dbId: Option<int>, input: seq<Entry>)
    ensures
      var r := Dispatched(handle, m0, text, tag, dbId, input);
      Coherent(r.result) && |r.handled| <= r.result.entriesProcessed
  {
    var entries := if input != [] then input else FallbackEntries(text, tag);
    if entries != [] {
      var ds := EntryDispatches(entries, dbId);
      CoherentResults(dbId, tag, ds, DispatchResults(handle, m0, ds), false);
      assert Dispatched(handle, m0, text, tag, dbId, input)
          == Routing(MultiResult(dbId, tag, ds, DispatchResults(handle, m0, ds)), [], DispatchCalls(ds));
    } else {
      var call := HandlerCallFor(text, tag, dbId);
      var ok := Outcome(handle, m0, call);
      CoherentResults(dbId, tag, [], [], ok);
      assert Dispatched(handle, m0, text, tag, dbId, input)
          == Routing(SingleResult(dbId, tag, ok), [], CallsOf(call));
    }
  }

  /** The summary agrees with the handlers' answers: the routing succeeds
      exactly when at least one handler reported success, never counts more
      successes than entries, and never calls more handlers than entries. */
  lemma StatusReflectsSuccesses(o: Oracles, text: string, tag: string, dbId: Option<int>)
    ensures
      var r := Route(o, text, tag, dbId).result;
      && (r.status == Success <==> r.successCount.Some? && r.successCount.value > 0)
      && (r.status == Success ==> r.additionalProcessing)
      && (r.successCount.Some? ==> r.successCount.value <= r.entriesProcessed)
      && (r.message.None? <==> r.successCount.Some?)
    ensures
      var rt := Route(o, text, tag, dbId);
      |rt.handled| <= rt.result.entriesProcessed
  {
    var input := InputEntries(text, tag);
    var rt := Route(o, text, tag, dbId);
    if dbId.Some? {
      DispatchedCoherent(o.handle, o.m0, text, tag, dbId, input);
    } else if input != [] {
      var calls := EntrySaveCalls(o, input);
      var ids := TruthyIds(Outcomes(o.saves, o.n0, calls));
      if ids == [] {
        CoherentResults(None, tag, [], [], false);
      } else {
        var ds := SavedDispatches(ids, input);
        CoherentResults(Some(ids[0]), tag, ds, DispatchResults(o.handle, o.m0, ds), false);
        assert rt == Routing(MultiResult(Some(ids[0]), tag, ds, DispatchResults(o.handle, o.m0, ds)), calls, DispatchCalls(ds));
      }
    } else {
      var id := SingleSaveId(o, text, tag);
      CoherentResults(None, tag, [], [], false);
      if id.Some? {
        DispatchedCoherent(o.handle, o.m0, text, tag, id, input);
      }
    }
    assert Coherent(rt.result);
  }

  /** No save gave a truthy id exactly when none of the outcomes is truthy. */
  lemma {:induction false} NoTruthyIds(os: seq<SaveOutcome>)
    ensures TruthyIds(os) == [] <==> forall k :: 0 <= k < |os| ==> !Truthy(os[k])
    decreases |os|
  {
    if os != [] {
      var front := os[..|os| - 1];
      NoTruthyIds(front);
      assert forall k :: 0 <= k < |front| ==> front[k] == os[k];
    }
  }

  /** The outcomes of the saves a routing without an id makes: one per entry
      found before saving, or else the one save of the whole transcription. */
  function SaveOutcomesOf(o: Oracles, text: string, tag: string): (os: seq<SaveOutcome>)
    ensures |os| >= 1
  {
    var input := InputEntries(text, tag);
    Outcomes(o.saves, o.n0, if input != [] then EntrySaves(input) else [SaveCall(text, Some(tag))])
  }

  /** Without an id and with an available store, the routing fails for want
      of an id exactly when every save it makes returns a falsy id or raises;
      it then reports the failure and calls no handler. */
  lemma SaveFailsIffNoTruthyId(o: Oracles, text: string, tag: string)
    requires o.available
    ensures
      var os := SaveOutcomesOf(o, text, tag);
      var rt := Route(o, text, tag, None);
      && ((forall k :: 0 <= k < |os| ==> !Truthy(os[k])) <==> rt.result.message.Some?)
      && ((forall k :: 0 <= k < |os| ==> !Truthy(os[k])) ==> rt.result == SaveFailed(tag) && rt.handled == [])
  {
    var input := InputEntries(text, tag);
    var os := SaveOutcomesOf(o, text, tag);
    NoTruthyIds(os);
    if input == [] {
      var id := SingleSaveId(o, text, tag);
      assert os == [o.saves(o.n0, SaveCall(text, Some(tag)))];
      if id.Some? {
        DispatchedUsesId(o.handle, o.m0, text, tag, id, input);
      }
    }
  }

  /** The routing dispatches the transcription itself: no entries were found
      before or after saving, and an id is known. */
  predicate SingleEntryPath(o: Oracles, text: string, tag: string, dbId: Option<int>) {
    && InputEntries(text, tag) == []
    && FallbackEntries(text, tag) == []
    && (dbId.Some? || SingleSaveId(o, text, tag).Some?)
  }

  /** On the single-entry path the transcription is dispatched once, with its
      raw text and tag and the known id, and counted as one entry; the
      routing succeeds, and reports additional processing, exactly when that
      dispatch does. */
  lemma SingleEntryRouting(o: Oracles, text: string, tag: string, dbId: Option<int>)
    requires SingleEntryPath(o, text, tag, dbId)
    ensures
      var id := if dbId.Some? then dbId else SingleSaveId(o, text, tag);
      var call := HandlerCallFor(text, tag, id);
      var rt := Route(o, text, tag, dbId);
      && rt.handled == CallsOf(call)
      && rt.result.dbId == id
      && rt.result.entriesProcessed == 1
      && rt.result.processedEntries == []
      && (rt.result.status == Success <==> Outcome(o.handle, o.m0, call))
      && rt.result.additionalProcessing == (rt.result.status == Success)
      && rt.result.successCount == Some(if rt.result.status == Success then 1 else 0)
  {
  }

  /** Whether each processed entry succeeded, in order. */
  function Successes(ps: seq<ProcessedEntry>): (r: seq<bool>)
    ensures |r| == |ps| && forall k :: 0 <= k < |ps| ==> r[k] == ps[k].success
  {
    seq(|ps|, k requires 0 <= k < |ps| => ps[k].success)
  }

  lemma MultiResultCounts(dbId: Option<int>, tag: string, ds: seq<Dispatch>, results: seq<bool>)
    requires |results| == |ds| > 0
    ensures
      var r := MultiResult(dbId, tag, ds, results);
      && r.message.None?
      && r.entriesProcessed == |r.processedEntries| > 0
      && r.additionalProcessing
      && r.successCount == Some(CountTrue(Successes(r.processedEntries)))
  {
    assert Successes(Records(ds, results)) == results;
  }

  /** Whenever entries are dispatched one by one, each is counted and
      recorded: `entries_processed` is the number of records and positive,
      `additional_processing` is `entries_processed > 0`, and `success_count`
      is the number of records marked successful. */
  lemma MultiEntryRouting(o: Oracles, text: string, tag: string, dbId: Option<int>)
    ensures
      var r := Route(o, text, tag, dbId).result;
      r.message.None? && !SingleEntryPath(o, text, tag, dbId) ==>
        && r.entriesProcessed == |r.processedEntries| > 0
        && r.additionalProcessing == (r.entriesProcessed > 0)
        && r.successCount == Some(CountTrue(Successes(r.processedEntries)))
  {
    var input := InputEntries(text, tag);
    var rt := Route(o, text, tag, dbId);
    if rt.result.message.None? && !SingleEntryPath(o, text, tag, dbId) {
      if dbId.Some? || input == [] {
        var id := if dbId.Some? then dbId else SingleSaveId(o, text, tag);
        assert id.Some?;
        var entries := if input != [] then input else FallbackEntries(text, tag);
        assert entries != [];
        var ds := EntryDispatches(entries, id);
        MultiResultCounts(id, tag, ds, DispatchResults(o.handle, o.m0, ds));
      } else {
        var calls := EntrySaveCalls(o, input);
        var ids := TruthyIds(Outcomes(o.saves, o.n0, calls));
        assert ids != [];
        var ds := SavedDispatches(ids, input);
        MultiResultCounts(Some(ids[0]), tag, ds, DispatchResults(o.handle, o.m0, ds));
      }
    }
  }

  /** Without an id and with an available store, every entry found before
      saving is saved as its own row under its own tag, in order; when none
      is found the transcription is saved once under the routing's tag. */
  lemma SavesPerEntry(o: Oracles, text: string, tag: string)
    requires o.available
    ensures
      var input := InputEntries(text, tag);
      var saves := Route(o, text, tag, None).saves;
      && (input != [] ==>
            |saves| == |input|
            && forall k :: 0 <= k < |input| ==> saves[k] == SaveCall(input[k].text, Some(input[k].tag)))
      && (input == [] ==> saves == [SaveCall(text, Some(tag))])
  {
  }

  lemma {:induction false} TruthyIdsAppend(a: seq<SaveOutcome>, b: seq<SaveOutcome>)
    ensures TruthyIds(a + b) == TruthyIds(a) + TruthyIds(b)
    decreases |b|
  {
    if b == [] {
      assert a + b == a;
    } else {
      assert (a + b)[..|a + b| - 1] == a + b[..|b| - 1];
      TruthyIdsAppend(a, b[..|b| - 1]);
    }
  }

  /** When every save returns a truthy id, the ids kept are the saves' ids,
      one per entry and in order. */
  lemma {:induction false} AllTruthyIds(os: seq<SaveOutcome>)
    requires forall k :: 0 <= k < |os| ==> Truthy(os[k])
    ensures |TruthyIds(os)| == |os|
    ensures forall k :: 0 <= k < |os| ==> os[k].Saved? && TruthyIds(os)[k] == os[k].id
    decreases |os|
  {
    if os != [] {
      var front := os[..|os| - 1];
      forall k | 0 <= k < |front| ensures Truthy(front[k]) {
        assert front[k] == os[k];
      }
      AllTruthyIds(front);
    }
  }

  /** When every save succeeds, saved entry `k` is dispatched and recorded with
      the id of its own row. */
  lemma SavedEntriesKeepTheirIds(o: Oracles, text: string, tag: string)
    requires o.available
    requires
      var input := InputEntries(text, tag);
      var os := Outcomes(o.saves, o.n0, EntrySaves(input));
      input != [] && forall k :: 0 <= k < |os| ==> Truthy(os[k])
    ensures
      var input := InputEntries(text, tag);
      var os := Outcomes(o.saves, o.n0, EntrySaves(input));
      var r := Route(o, text, tag, None).result;
      && r.dbId == Some(os[0].id)
      && |r.processedEntries| == |input|
      && forall k :: 0 <= k < |input| ==>
           r.processedEntries[k].id == Some(os[k].id) && r.processedEntries[k].tag == input[k].tag
  {
    var input := InputEntries(text, tag);
    var calls := EntrySaveCalls(o, input);
    var os := Outcomes(o.saves, o.n0, calls);
    AllTruthyIds(os);
    var ids := TruthyIds(os);
    var ds := SavedDispatches(ids, input);
    var results := DispatchResults(o.handle, o.m0, ds);
    assert Route(o, text, tag, None).result == MultiResult(Some(ids[0]), tag, ds, results);
    var entries := Records(ds, results);
    forall k | 0 <= k < |input|
      ensures entries[k].id == Some(os[k].id) && entries[k].tag == input[k].tag
    {
      assert entries[k] == Record(ds[k], results[k]);
      assert ds[k] == Dispatch(Some(ids[k]), Some(ids[k]), input[k].text, input[k].tag);
    }
  }

  /** The kept ids are paired with the entries by position, not by the save
      they came from: when the first save returns no id and the second does,
      the first entry is dispatched and recorded with the second entry's id. */
  lemma SavedIdsShiftAfterFailedSave(o: Oracles, text: string, tag: string)
    requires o.available
    requires
      var input := InputEntries(text, tag);
      var os := Outcomes(o.saves, o.n0, EntrySaves(input));
      |input| >= 2 && !Truthy(os[0]) && Truthy(os[1])
    ensures
      var input := InputEntries(text, tag);
      var os := Outcomes(o.saves, o.n0, EntrySaves(input));
      var r := Route(o, text, tag, None).result;
      && r.dbId == Some(os[1].id)
      && r.processedEntries[0].id == Some(os[1].id)
      && r.processedEntries[0].text == Truncate50(input[0].text)
      && r.processedEntries[0].tag == input[0].tag
  {
    var input := InputEntries(text, tag);
    var os := Outcomes(o.saves, o.n0, EntrySaves(input));
    FirstIdFromSecondSave(os);
  }

  lemma FirstIdFromSecondSave(os: seq<SaveOutcome>)
    requires |os| >= 2 && !Truthy(os[0]) && Truthy(os[1])
    ensures TruthyIds(os) != [] && TruthyIds(os)[0] == os[1].id
  {
    assert os == [os[0]] + [os[1]] + os[2..];
    TruthyIdsAppend([os[0]] + [os[1]], os[2..]);
    TruthyIdsAppend([os[0]], [os[1]]);
    assert [os[0]][..0] == [] && [os[1]][..0] == [];
    assert TruthyIds([os[0]]) == [];
    assert TruthyIds([os[1]]) == [os[1].id];
  }

  /** When the first look finds nothing, the strict parser finds nothing on
      the second look either: the entries dispatched are the fallback
      parser's, taken from the tag or else from the text. */
  lemma SecondLookIsFallbackParser(text: string, tag: string)
    requires InputEntries(text, tag) == []
    ensures FallbackEntries(text, tag) ==
      if HoldsEntries(tag) && ComplexEntries(tag) != [] then ComplexEntries(tag)
      else if HoldsEntries(text) then ComplexEntries(text)
      else []
  {
  }

  /** Every tag is its own `strip()`. */
  predicate TagsStripped(es: seq<Entry>) {
    forall k :: 0 <= k < |es| ==> Strip(es[k].tag) == es[k].tag
  }

  lemma StrictTagsStripped(r: string)
    ensures TagsStripped(StrictEntries(r))
  {
    var es := StrictEntries(r);
    forall k | 0 <= k < |es| ensures Strip(es[k].tag) == es[k].tag {
      WordsStripLower(es[k].tag);
    }
  }

  lemma ComplexTagsStripped(r: string)
    ensures TagsStripped(ComplexEntries(r))
  {
    var es := ComplexEntries(r);
    forall k | 0 <= k < |es| ensures Strip(es[k].tag) == es[k].tag {
      StripFacts(es[k].tag);
    }
  }

  /** The `strip()` of line 197 changes no tag: every parsed tag is already
      stripped, so each entry reaches its handler under its own tag. */
  lemma DispatchedTagsUnchanged(text: string, tag: string)
    ensures
      var input := InputEntries(text, tag);
      TagsStripped(if input != [] then input else FallbackEntries(text, tag))
  {
    var input := InputEntries(text, tag);
    if input != [] {
      if HoldsEntries(tag) && StrictEntries(tag) != [] {
        StrictTagsStripped(tag);
      } else {
        StrictTagsStripped(text);
      }
    } else {
      var fromTag :=
        if HoldsEntries(tag) then
          (if StrictEntries(tag) != [] then StrictEntries(tag) else ComplexEntries(tag))
        else [];
      StrictTagsStripped(tag);
      ComplexTagsStripped(tag);
      assert TagsStripped(fromTag);
      if fromTag == [] && HoldsEntries(text) {
        StrictTagsStripped(text);
        ComplexTagsStripped(text);
      }
    }
  }
}
