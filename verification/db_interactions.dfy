/**
 * `save_to_database` of
 * jassist/voice_diary/route_transcription/db_interactions.py.
 *
 * When the tag is itself a classifier answer holding several entries, each
 * entry the strict parser finds is saved as its own transcription; otherwise
 * (or when the parser finds nothing) the transcription is saved once under
 * the tag as given. The result is the id of the last save that returned a
 * truthy id, None when there is none, and None whenever the store is
 * unavailable or a save raises.
 */
module DbInteractions {
  import opened Wrappers
  import opened Text
  import opened StrictParser
  import opened Collaborators

  /** The test `"text:" in s and "tag:" in s`. */
  predicate HoldsEntries(s: string) {
    Contains(s, "text:") && Contains(s, "tag:")
  }

  /** The test `tag and ("text:" in tag and "tag:" in tag)` of line 83. */
  predicate MultiEntryTag(tag: Option<string>) {
    tag.Some? && tag.value != [] && HoldsEntries(tag.value)
  }

  /** The save calls one `save_to_database(text, tag)` plans, in order. */
  function PlannedSaves(text: string, tag: Option<string>): (r: seq<SaveCall>)
    ensures |r| >= 1
  {
    if MultiEntryTag(tag) && StrictEntries(tag.value) != [] then
      EntrySaves(StrictEntries(tag.value))
    else [SaveCall(text, tag)]
  }

  /** One save call per parsed entry, under the entry's own tag. */
  function EntrySaves(entries: seq<Entry>): (r: seq<SaveCall>)
    ensures |r| == |entries|
    ensures forall k :: 0 <= k < |r| ==> r[k] == SaveCall(entries[k].text, Some(entries[k].tag))
  {
    seq(|entries|, k requires 0 <= k < |entries| => SaveCall(entries[k].text, Some(entries[k].tag)))
  }

  /** The outcomes the store gives to `calls` made from position `n` of its log on. */
  function Outcomes(answer: (nat, SaveCall) -> SaveOutcome, n: nat, calls: seq<SaveCall>): (r: seq<SaveOutcome>)
    ensures |r| == |calls|
    ensures forall k :: 0 <= k < |r| ==> r[k] == answer(n + k, calls[k])
  {
    seq(|calls|, k requires 0 <= k < |calls| => answer(n + k, calls[k]))
  }

  /** The position of the first save that raises, or the number of saves when none does. */
  function FirstRaised(os: seq<SaveOutcome>): (r: nat)
    ensures r <= |os|
    ensures forall k :: 0 <= k < r ==> !os[k].Raised?
    ensures r < |os| ==> os[r].Raised?
  {
    if os == [] then 0
    else if os[0].Raised? then 0
    else 1 + FirstRaised(os[1..])
  }

  /** How many of the planned saves are made: up to and including the first that raises. */
  function Attempted(os: seq<SaveOutcome>): (r: nat)
    ensures r <= |os|
  {
    if FirstRaised(os) < |os| then FirstRaised(os) + 1 else |os|
  }

  /** A truthy id: Python treats 0 like None in `if record_id:`. */
  predicate Truthy(o: SaveOutcome) {
    o.Saved? && o.id != 0
  }

  /** The id of the last save that returned a truthy id. */
  function LastTruthyId(os: seq<SaveOutcome>): (r: Option<int>)
    ensures r.Some? ==> r.value != 0
  {
    if os == [] then None
    else if Truthy(os[|os| - 1]) then Some(os[|os| - 1].id)
    else LastTruthyId(os[..|os| - 1])
  }

  /** What `save_to_database` returns once the store is available. */
  function SaveReturn(os: seq<SaveOutcome>): Option<int> {
    if FirstRaised(os) < |os| then None else LastTruthyId(os)
  }

  lemma LastTruthyStep(os: seq<SaveOutcome>, i: nat)
    requires i < |os|
    ensures LastTruthyId(os[..i + 1]) == if Truthy(os[i]) then Some(os[i].id) else LastTruthyId(os[..i])
  {
    assert os[..i + 1][..i] == os[..i];
  }

  lemma SingleSave(os: seq<SaveOutcome>)
    requires |os| == 1 && !os[0].Raised?
    ensures SaveReturn(os) == if Truthy(os[0]) then Some(os[0].id) else None
  {
    assert FirstRaised(os) == 1;
    assert os[..|os| - 1] == [];
    assert LastTruthyId(os) == if Truthy(os[0]) then Some(os[0].id) else LastTruthyId([]);
  }

  /** The loop of lines 102-120: one save per entry, keeping the last truthy
      id; an exception ends the loop (and `save_to_database`) at once. */
  method SaveEach(store: TranscriptionStore, entries: seq<Entry>) returns (raised: bool, lastRecordId: Option<int>)
    modifies store
    ensures
      var calls := EntrySaves(entries);
      var os := Outcomes(store.answer, |old(store.log)|, calls);
      && store.log == old(store.log) + calls[..Attempted(os)]
      && raised == (FirstRaised(os) < |os|)
      && (!raised ==> lastRecordId == LastTruthyId(os))
  {
    ghost var calls := EntrySaves(entries);
    ghost var os := Outcomes(store.answer, |store.log|, calls);
    lastRecordId := None;
    for i := 0 to |entries|
      invariant store.log == old(store.log) + calls[..i]
      invariant forall k :: 0 <= k < i ==> !os[k].Raised?
      invariant lastRecordId == LastTruthyId(os[..i])
    {
      var outcome := store.Save(SaveCall(entries[i].text, Some(entries[i].tag)));
      assert outcome == os[i];
      LastTruthyStep(os, i);
      assert calls[..i + 1] == calls[..i] + [calls[i]];
      AppendAssociates(old(store.log), calls[..i], [calls[i]]);
      if outcome.Raised? {
        assert FirstRaised(os) == i;
        return true, lastRecordId;
      }
      if outcome.Saved? && outcome.id != 0 {
        lastRecordId := Some(outcome.id);
      }
    }
    assert calls[..|entries|] == calls && os[..|entries|] == os;
    return false, lastRecordId;
  }

  /** `save_to_database(text, file_path, duration, model_used, tag)`. */
  method SaveToDatabase(store: TranscriptionStore, text: string, tag: Option<string>) returns (id: Option<int>)
    modifies store
    ensures !store.available ==> id.None? && store.log == old(store.log)
    ensures store.available ==>
      var calls := PlannedSaves(text, tag);
      var os := Outcomes(store.answer, |old(store.log)|, calls);
      && store.log == old(store.log) + calls[..Attempted(os)]
      && id == SaveReturn(os)
  {
    if !store.available {
      return None;
    }
    ghost var n0 := |store.log|;
    ghost var calls := PlannedSaves(text, tag);
    ghost var os := Outcomes(store.answer, n0, calls);
    var lastRecordId: Option<int> := None;
    if tag.Some? && tag.value != [] && Contains(tag.value, "text:") && Contains(tag.value, "tag:") {
      var entries := ParseLlmResponse(tag.value);
      if entries == [] {
        var outcome := store.Save(SaveCall(text, tag));
        if outcome.Raised? {
          return None;
        }
        lastRecordId := if outcome.Saved? then Some(outcome.id) else None;
        SingleSave(os);
      } else {
        assert calls == EntrySaves(entries);
        var raised;
        raised, lastRecordId := SaveEach(store, entries);
        if raised {
          return None;
        }
      }
    } else {
      var outcome := store.Save(SaveCall(text, tag));
      if outcome.Raised? {
        return None;
      }
      lastRecordId := if outcome.Saved? then Some(outcome.id) else None;
      SingleSave(os);
    }
    if lastRecordId.Some? && lastRecordId.value != 0 {
      return lastRecordId;
    } else {
      return None;
    }
  }

  // ---------------------------------------------------------------------
  // Properties.

  /** Save `k` returned a truthy id and no later save did. */
  predicate LastTruthyAt(os: seq<SaveOutcome>, k: int) {
    && 0 <= k < |os|
    && Truthy(os[k])
    && forall j :: k < j < |os| ==> !Truthy(os[j])
  }

  lemma {:induction false} LastTruthyAtGives(os: seq<SaveOutcome>, k: int)
    requires LastTruthyAt(os, k)
    ensures LastTruthyId(os) == Some(os[k].id)
    decreases |os|
  {
    var n := |os|;
    if k < n - 1 {
      var front := os[..n - 1];
      assert !Truthy(os[n - 1]);
      assert front[k] == os[k];
      forall j | k < j < |front| ensures !Truthy(front[j]) {
        assert front[j] == os[j];
      }
      LastTruthyAtGives(front, k);
    }
  }

  lemma {:induction false} LastTruthyFound(os: seq<SaveOutcome>) returns (k: nat)
    requires LastTruthyId(os).Some?
    ensures LastTruthyAt(os, k) && os[k].id == LastTruthyId(os).value
    decreases |os|
  {
    var n := |os|;
    if Truthy(os[n - 1]) {
      k := n - 1;
    } else {
      var front := os[..n - 1];
      k := LastTruthyFound(front);
      assert front[k] == os[k];
      forall j | k < j < n ensures !Truthy(os[j]) {
        if j < n - 1 {
          assert front[j] == os[j];
        }
      }
    }
  }

  lemma {:induction false} NoTruthyId(os: seq<SaveOutcome>)
    ensures LastTruthyId(os).None? <==> forall k :: 0 <= k < |os| ==> !Truthy(os[k])
    decreases |os|
  {
    if os != [] {
      var n := |os|;
      var front := os[..n - 1];
      NoTruthyId(front);
      forall k | 0 <= k < n - 1 ensures front[k] == os[k] { }
    }
  }

  /** `save_to_database` returns `id` exactly when no save raised and `id` is
      the truthy id of the last save that returned one; it returns None
      exactly when a save raised or no save returned a truthy id. */
  lemma SaveReturnIff(os: seq<SaveOutcome>, id: int)
    ensures SaveReturn(os) == Some(id)
        <==> FirstRaised(os) == |os| && exists k :: LastTruthyAt(os, k) && os[k].id == id
    ensures SaveReturn(os).None?
        <==> FirstRaised(os) < |os| || forall k :: 0 <= k < |os| ==> !Truthy(os[k])
  {
    NoTruthyId(os);
    if SaveReturn(os) == Some(id) {
      var k := LastTruthyFound(os);
    }
    if FirstRaised(os) == |os| && exists k :: LastTruthyAt(os, k) && os[k].id == id {
      var k :| LastTruthyAt(os, k) && os[k].id == id;
      LastTruthyAtGives(os, k);
    }
  }

  /** A tag the strict parser produced holds no `text:`, so saving an entry
      under its own tag is one plain save: the entry is never split again. */
  lemma EntrySaveIsSingle(e: Entry)
    requires StrictShape(e)
    ensures PlannedSaves(e.text, Some(e.tag)) == [SaveCall(e.text, Some(e.tag))]
  {
    StrictTagHasNoMarkers(e);
  }

  /** A tag holding strict entries is saved as one row per entry, each under
      the entry's own text and tag and in the parser's order. */
  lemma MultiEntrySaves(text: string, tag: string)
    requires HoldsEntries(tag) && StrictEntries(tag) != []
    ensures |PlannedSaves(text, Some(tag))| == |StrictEntries(tag)|
    ensures forall k :: 0 <= k < |StrictEntries(tag)| ==>
      PlannedSaves(text, Some(tag))[k] == SaveCall(StrictEntries(tag)[k].text, Some(StrictEntries(tag)[k].tag))
  {
    assert MultiEntryTag(Some(tag));
    assert PlannedSaves(text, Some(tag)) == EntrySaves(StrictEntries(tag));
  }
}
