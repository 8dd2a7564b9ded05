/** Early routing of streamed content and the no-double-processing ledger of src/stream-fast-path.ts. */
module StreamFastPath {
  import opened Common
  import RunEvents

  predicate IsStreamCriticalKind(kind: RunEvents.Kind) {
    kind.AssistantDelta? || kind.ThinkingDelta?
  }

  predicate IsStreamCriticalWireType(wire: string) {
    IsStreamCriticalKind(RunEvents.NormalizeEventKind(wire))
  }

  /** The injected callbacks, as a record of which were fired. */
  datatype Effect =
    | FoldContent(caption: string) | FoldReasoning(caption: string)
    | PhaseResponseDelta | PhaseReasoningDelta | MarkRunEvidence

  /** What delivering one event of a stream-critical kind fires, in order. */
  function Effects(kind: RunEvents.Kind, caption: Option<string>): seq<Effect>
    requires IsStreamCriticalKind(kind)
  {
    var text := if caption.Some? then caption.value else "";
    if text == "" then [MarkRunEvidence]
    else if kind.ThinkingDelta? then [MarkRunEvidence, FoldReasoning(text), PhaseReasoningDelta]
    else [MarkRunEvidence, FoldContent(text), PhaseResponseDelta]
  }

  class StreamingFastPath {
    var processed: set<string>

    constructor ()
      ensures processed == {}
    {
      processed := {};
    }

    /** `fired` is the sequence of callbacks this call made. */
    method Deliver(id: string, wire: string, caption: Option<string>) returns (taken: bool, fired: seq<Effect>)
      modifies this
      ensures taken <==> wire in {"response", "assistant_delta", "reasoning", "thinking_delta"}
      ensures taken && (caption.None? || caption.value == "") ==> fired == [MarkRunEvidence]
      ensures taken && caption.Some? && caption.value != "" ==>
                fired == if wire in {"response", "assistant_delta"}
                         then [MarkRunEvidence, FoldContent(caption.value), PhaseResponseDelta]
                         else [MarkRunEvidence, FoldReasoning(caption.value), PhaseReasoningDelta]
      ensures processed == if taken then old(processed) + {id} else old(processed)
      ensures fired == if taken then Effects(RunEvents.NormalizeEventKind(wire), caption) else []
    {
      fired := [];
      RunEvents.ContentNames(wire);
      if !IsStreamCriticalWireType(wire) {
        return false, fired;
      }
      processed := processed + {id};
      fired := fired + [MarkRunEvidence];
      var text := if caption.Some? then caption.value else "";
      if text == "" {
        return true, fired;
      }
      if RunEvents.NormalizeEventKind(wire).ThinkingDelta? {
        fired := fired + [FoldReasoning(text)];
        fired := fired + [PhaseReasoningDelta];
        return true, fired;
      }
      fired := fired + [FoldContent(text)];
      fired := fired + [PhaseResponseDelta];
      return true, fired;
    }

    method ConsumeBatchEvent(id: string) returns (skip: bool)
      modifies this
      ensures skip == (id in old(processed))
      ensures processed == old(processed) - {id}
    {
      skip := id in processed;
      processed := processed - {id};
    }

    method Reset()
      modifies this
      ensures processed == {}
    {
      processed := {};
    }
  }
}
