/**
 * The collaborators the routing core calls but does not implement: the
 * transcription store behind `initialize_db` and `save_transcription`
 * (jassist/voice_diary/db_utils), and the six category handlers behind
 * `insert_into_calendar`, `insert_into_diary`, `insert_into_todo`,
 * `insert_into_accounts`, `insert_into_contacts` and `insert_into_entities`.
 *
 * Each is an oracle: it records every call it receives, in order, and the
 * answer to the n-th call is a fixed but arbitrary function of n and of the
 * call, so that nothing is assumed about the database or the language model
 * behind it.
 */
module Collaborators {
  import opened Wrappers

  /** The varying arguments of one `save_transcription` call; the file name,
      audio path, duration and metadata are the same on every call that one
      routing makes. */
  datatype SaveCall = SaveCall(content: string, tag: Option<string>)

  /** What one `save_transcription` call gives back: the new row's id, None,
      or an exception. */
  datatype SaveOutcome = Saved(id: int) | NotSaved | Raised

  class TranscriptionStore {
    /** What `initialize_db()` answers. */
    const available: bool
    /** The outcome of the n-th save call. */
    const answer: (nat, SaveCall) -> SaveOutcome
    /** Every save call received so far. */
    var log: seq<SaveCall>

    constructor (available: bool, answer: (nat, SaveCall) -> SaveOutcome)
      ensures this.available == available && this.answer == answer
      ensures log == []
    {
      this.available := available;
      this.answer := answer;
      log := [];
    }

    /** `save_transcription(content=..., tag=...)`. */
    method Save(call: SaveCall) returns (outcome: SaveOutcome)
      modifies this
      ensures log == old(log) + [call]
      ensures outcome == answer(|old(log)|, call)
    {
      outcome := answer(|log|, call);
      log := log + [call];
    }
  }

  /** The six categories that have a handler. */
  datatype Category = Calendar | Diary | Todo | Accounts | Contacts | Entities

  /** One `insert_into_<category>(text, db_id)` call. */
  datatype HandlerCall = HandlerCall(category: Category, text: string, dbId: Option<int>)

  class CategoryHandlers {
    /** Whether the n-th handler call reports success. */
    const answer: (nat, HandlerCall) -> bool
    /** Every handler call made so far. */
    var calls: seq<HandlerCall>

    constructor (answer: (nat, HandlerCall) -> bool)
      ensures this.answer == answer && calls == []
    {
      this.answer := answer;
      calls := [];
    }

    method Handle(call: HandlerCall) returns (ok: bool)
      modifies this
      ensures calls == old(calls) + [call]
      ensures ok == answer(|old(calls)|, call)
    {
      ok := answer(|calls|, call);
      calls := calls + [call];
    }
  }
}
