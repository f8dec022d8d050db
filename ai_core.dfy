/**
 * The single-flight gate around one model call (server/ai/core.ts). The model,
 * its grammar step and the schema check are one oracle: the call either yields
 * data that passed validation, fails validation, or throws.
 */
module AiCore {
  import opened Wrappers

  datatype Outcome<T> = Validated(data: T) | ValidationFailed | Threw

  /** What a finished call hands back: the data, or `null` on any failure. */
  function ResultOf<T>(outcome: Outcome<T>): (r: Option<T>)
    ensures r.Some? <==> outcome.Validated?
    ensures outcome.Validated? ==> r == Some(outcome.data)
  {
    match outcome
    case Validated(d) => Some(d)
    case ValidationFailed => None
    case Threw => None
  }

  /** The model runtime's flags (`AI_STATE`): loaded parts and the busy flag. */
  class AiRuntime {
    var hasLlama: bool
    var hasModel: bool
    var hasSession: bool
    var isAiBusy: bool

    constructor (llama: bool, model: bool, session: bool, busy: bool)
      ensures hasLlama == llama && hasModel == model && hasSession == session && isAiBusy == busy
    {
      hasLlama, hasModel, hasSession, isAiBusy := llama, model, session, busy;
    }

    /** `!session || isAiBusy || !llama`: the call is refused. */
    predicate GateClosed()
      reads this
    {
      !hasSession || isAiBusy || !hasLlama
    }

    /**
     * `executeAITask(options)`. A refused call returns `None` and leaves the flag
     * alone; an admitted one holds the flag while the model runs (`busyAtCall`)
     * and releases it on every exit, returning the data only when it validated.
     */
    method ExecuteAITask<T>(outcome: Outcome<T>) returns (r: Option<T>, called: bool, ghost busyAtCall: bool)
      modifies this
      ensures old(GateClosed()) ==> r == None && !called && isAiBusy == old(isAiBusy)
      ensures !old(GateClosed()) ==> called && busyAtCall && !isAiBusy && r == ResultOf(outcome)
      ensures hasLlama == old(hasLlama) && hasModel == old(hasModel) && hasSession == old(hasSession)
    {
      busyAtCall := isAiBusy;
      if GateClosed() {
        return None, false, busyAtCall;
      }
      isAiBusy := true;
      // the grammar, the prompt and the schema check run here, under the flag
      called := true;
      busyAtCall := isAiBusy;
      match outcome {
        case Validated(d) => r := Some(d);
        case ValidationFailed => r := None;
        case Threw => r := None;
      }
      // `finally`
      isAiBusy := false;
    }
  }
}
