/**
 * Where the evaluator and the markdown export meet: the message the evaluator
 * adds to the conversation carries the prefix that the export recognises and
 * strips, so exported feedback reads as the critic wrote it.
 */
module FeedbackExport {
  import opened Wrappers
  import opened Text
  import Evaluator
  import opened OutputSaver

  /** A role/content message as it appears in an exported history. */
  function AsEntry(m: Evaluator.RoleMessage): (e: Entry)
    ensures RoleOf(e) == m.role && ContentOf(e) == m.content
  {
    Entry(Some(m.role), Some(m.content))
  }

  /** The export strips exactly the prefix the evaluator adds. */
  lemma PrefixesAgree()
    ensures Evaluator.FeedbackPrefix == StrippedPrefix
    ensures StartsWith(StrippedPrefix, FeedbackMarker)
  {
    assert StrippedPrefix[..|FeedbackMarker|] == FeedbackMarker;
  }

  /**
   * The evaluator's message is rendered under the Evaluator Feedback heading,
   * as the feedback with every occurrence of the prefix removed.
   */
  lemma EvaluatorMessageRendersAsFeedback(judgement: Evaluator.EvaluatorOutput)
    ensures RenderEntry(AsEntry(Evaluator.UpdateFor(judgement).messages[0])) ==
            "### Evaluator Feedback\n\n" + ReplaceAll(judgement.feedback, StrippedPrefix, "") + "\n\n"
  {
    var content := Evaluator.FeedbackPrefix + judgement.feedback;
    PrefixesAgree();
    assert StartsWith(content, FeedbackMarker) by {
      assert content[..|FeedbackMarker|] == StrippedPrefix[..|FeedbackMarker|];
    }
    assert Contains(content, FeedbackMarker);
    ReplaceAllLeading(judgement.feedback, StrippedPrefix, "");
    assert "" + ReplaceAll(judgement.feedback, StrippedPrefix, "") == ReplaceAll(judgement.feedback, StrippedPrefix, "");
  }

  /** Feedback that does not itself contain the prefix is exported exactly as the critic wrote it. */
  lemma FeedbackRoundTrip(judgement: Evaluator.EvaluatorOutput)
    requires !Contains(judgement.feedback, StrippedPrefix)
    ensures RenderEntry(AsEntry(Evaluator.UpdateFor(judgement).messages[0])) ==
            "### Evaluator Feedback\n\n" + judgement.feedback + "\n\n"
  {
    EvaluatorMessageRendersAsFeedback(judgement);
    ReplaceAllAbsent(judgement.feedback, StrippedPrefix, "");
  }

  /**
   * When an exported history ends with the worker's answer and then the
   * evaluator's message, the final output is the worker's answer and not the
   * feedback.
   */
  lemma FinalOutputSkipsFeedback(earlier: seq<Entry>, answer: string, judgement: Evaluator.EvaluatorOutput)
    ensures FinalResponse(earlier + [Entry(Some(AssistantRole), Some(answer)),
                                     AsEntry(Evaluator.UpdateFor(judgement).messages[0])]) == answer
  {
    FinalResponseIsReplyBeforeFeedback(earlier, Entry(Some(AssistantRole), Some(answer)),
                                       AsEntry(Evaluator.UpdateFor(judgement).messages[0]));
  }
}
