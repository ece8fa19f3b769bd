/**
 * The evaluator of the worker/evaluator loop: it renders the conversation for
 * the critic, assembles the critic's prompt, folds the critic's structured
 * judgement into a state update, and routes on that judgement.
 *
 * The language model is not modelled: the judgement is whatever an oracle
 * `judge` returns for the prompt, and `None` stands for a structured-output
 * call that raised.
 */
module Evaluator {
  import opened Wrappers
  import opened Text

  /** A conversation message: a human turn, an AI turn, or any other kind (system, tool result). */
  datatype Message = Human(content: string) | AI(content: string) | Other(content: string)

  /** The graph state as the evaluator and the router read it. */
  datatype State = State(
    messages: seq<Message>,
    successCriteria: string,
    feedbackOnWork: Option<string>,
    successCriteriaMet: bool,
    userInputNeeded: bool)

  /** The critic's structured judgement. */
  datatype EvaluatorOutput = EvaluatorOutput(feedback: string, successCriteriaMet: bool, userInputNeeded: bool)

  /** A message written as a role/content dictionary. */
  datatype RoleMessage = RoleMessage(role: string, content: string)

  /** The partial state that an evaluation returns to the graph. */
  datatype StateUpdate = StateUpdate(
    messages: seq<RoleMessage>,
    feedbackOnWork: string,
    successCriteriaMet: bool,
    userInputNeeded: bool)

  /** The two messages sent to the critic. */
  datatype Prompt = Prompt(system: string, user: string)

  const ConversationHeader := "Conversation history:\n\n"
  const ToolsPlaceholder := "[Tools use]"
  const FeedbackPrefix := "Evaluator Feedback on this answer: "
  const EndRoute := "END"
  const WorkerRoute := "worker"

  // ---------------------------------------------------------------------------
  // Rendering the conversation
  // ---------------------------------------------------------------------------

  /** The text of the line a human or AI message renders as, without its newline. */
  function LineText(m: Message): string
    requires !m.Other?
  {
    match m
    case Human(t) => "User: " + t
    case AI(t) => "Assistant: " + (if t == "" then ToolsPlaceholder else t)
  }

  /** What one message contributes to the rendered conversation. */
  function Line(m: Message): string {
    if m.Other? then "" else LineText(m) + "\n"
  }

  /** The rendered conversation after its header. */
  function Transcript(ms: seq<Message>): string
    decreases |ms|
  {
    if ms == [] then "" else Line(ms[0]) + Transcript(ms[1..])
  }

  /** The human and AI messages of `ms`, in order. */
  function ChatMessages(ms: seq<Message>): (chat: seq<Message>)
    ensures |chat| <= |ms|
    ensures forall k :: 0 <= k < |chat| ==> !chat[k].Other?
    decreases |ms|
  {
    if ms == [] then []
    else (if ms[0].Other? then [] else [ms[0]]) + ChatMessages(ms[1..])
  }

  /** The expected lines: one per human or AI message, in order. */
  function LineTexts(ms: seq<Message>): seq<string> {
    var chat := ChatMessages(ms);
    seq(|chat|, k requires 0 <= k < |chat| => LineText(chat[k]))
  }

  /** Rendering distributes over concatenation: order is kept and nothing is shared between parts. */
  lemma {:induction false} TranscriptAppend(a: seq<Message>, b: seq<Message>)
    ensures Transcript(a + b) == Transcript(a) + Transcript(b)
    decreases |a|
  {
    if a == [] {
      assert a + b == b;
    } else {
      assert (a + b)[0] == a[0];
      assert (a + b)[1..] == a[1..] + b;
      TranscriptAppend(a[1..], b);
    }
  }

  /** Rendering one more message appends its line. */
  lemma TranscriptSnoc(ms: seq<Message>, m: Message)
    ensures Transcript(ms + [m]) == Transcript(ms) + Line(m)
  {
    assert Transcript([m]) == Line(m) by {
      assert [m][1..] == [];
      assert Line(m) + "" == Line(m);
    }
    TranscriptAppend(ms, [m]);
  }

  /** A line holds a newline only if the message content does. */
  lemma LineTextHasNoNewline(m: Message)
    requires !m.Other? && '\n' !in m.content
    ensures forall i :: 0 <= i < |LineText(m)| ==> LineText(m)[i] != '\n'
  {
    var line := LineText(m);
    match m
    case Human(t) =>
      assert line == "User: " + t;
      assert forall i :: 0 <= i < |t| ==> line[6 + i] == t[i];
    case AI(t) =>
      var text := if t == "" then ToolsPlaceholder else t;
      assert line == "Assistant: " + text;
      assert forall i :: 0 <= i < |text| ==> line[11 + i] == text[i];
  }

  /** A message that is neither human nor AI leaves the rendering unchanged wherever it stands. */
  lemma {:induction false} OtherMessagesRenderNothing(a: seq<Message>, content: string, b: seq<Message>)
    ensures Transcript(a + [Other(content)] + b) == Transcript(a + b)
  {
    var other := [Other(content)];
    assert Transcript(other) == "" by {
      assert other[1..] == [];
    }
    TranscriptAppend(a + other, b);
    TranscriptAppend(a, other);
    TranscriptAppend(a, b);
    assert Transcript(a + other) == Transcript(a);
  }

  /**
   * When no human or AI message holds a newline, the rendering is exactly one
   * line per such message, in input order (the empty last piece follows the
   * final newline).
   */
  lemma {:induction false} TranscriptLines(ms: seq<Message>)
    requires forall k :: 0 <= k < |ms| && !ms[k].Other? ==> '\n' !in ms[k].content
    ensures SplitOn(Transcript(ms), '\n') == LineTexts(ms) + [""]
    decreases |ms|
  {
    if ms != [] {
      var m, rest := ms[0], ms[1..];
      var t := Transcript(rest);
      TranscriptLines(rest);
      LineTextsCons(ms);
      if m.Other? {
        assert Transcript(ms) == "" + t == t;
      } else {
        var line := LineText(m);
        LineTextHasNoNewline(m);
        AppendAssoc(line, "\n", t);
        assert Transcript(ms) == line + ("\n" + t);
        SplitOffLine(line, t, '\n');
        AppendAssoc([line], LineTexts(rest), [""]);
      }
    }
  }

  lemma LineTextsCons(ms: seq<Message>)
    requires ms != []
    ensures LineTexts(ms) == (if ms[0].Other? then [] else [LineText(ms[0])]) + LineTexts(ms[1..])
  {
    assert ChatMessages(ms) == (if ms[0].Other? then [] else [ms[0]]) + ChatMessages(ms[1..]);
  }

  /** The conversation rendering the critic receives; the loop appends one line per human or AI message. */
  method FormatConversation(messages: seq<Message>) returns (conversation: string)
    ensures conversation == ConversationHeader + Transcript(messages)
  {
    conversation := ConversationHeader;
    ghost var done: seq<Message> := [];
    for i := 0 to |messages|
      invariant done == messages[..i]
      invariant conversation == ConversationHeader + Transcript(done)
    {
      var message := messages[i];
      TranscriptSnoc(done, message);
      AppendAssoc(ConversationHeader, Transcript(done), Line(message));
      match message {
        case Human(t) =>
          conversation := conversation + ("User: " + t + "\n");
        case AI(t) =>
          var text := if t == "" then ToolsPlaceholder else t;
          conversation := conversation + ("Assistant: " + text + "\n");
        case Other(_) =>
          assert Line(message) == "";
          assert conversation + "" == conversation;
      }
      PrefixSnoc(messages, i);
      done := done + [message];
    }
    assert done == messages;
  }

  // ---------------------------------------------------------------------------
  // The critic's prompt and the state update
  // ---------------------------------------------------------------------------

  /**
   * The fixed texts of the critic's prompt. The user message is `intro`, the
   * rendered conversation, `criteriaHeading`, the criterion,
   * `responseHeading`, the response under judgement and `closing`, followed,
   * when there is earlier feedback, by `priorFeedback`, that feedback, a
   * newline and `repeatedMistakes`.
   */
  datatype PromptTexts = PromptTexts(
    system: string,
    intro: string,
    criteriaHeading: string,
    responseHeading: string,
    closing: string,
    priorFeedback: string,
    repeatedMistakes: string)

  /**
   * The texts the evaluator sends, character for character (each is written
   * as short literals joined together).
   */
  const EvaluatorPrompts := PromptTexts(
    system :=
        "You are an evaluator that determines if a task has been completed "
        + "successfully by an Assistant.\n"
        + "    Assess the Assistant's last response based on the given criteria. "
        + "Respond with your feedback, and with your decision on whether the "
        + "success criteria has been met,\n"
        + "    and whether more input is needed from the user.",
    intro :=
        "You are evaluating a conversation between the User and Assistant. You "
        + "decide what action to take based on the last response from the "
        + "Assistant.\n"
        + "\n"
        + "    The entire conversation with the assistant, with the user's "
        + "original request and all replies, is:\n"
        + "    ",
    criteriaHeading :=
        "\n"
        + "\n"
        + "    The success criteria for this assignment is:\n"
        + "    ",
    responseHeading :=
        "\n"
        + "\n"
        + "    And the final response from the Assistant that you are evaluating "
        + "is:\n"
        + "    ",
    closing :=
        "\n"
        + "\n"
        + "    Respond with your feedback, and decide if the success criteria is "
        + "met by this response.\n"
        + "    Also, decide if more user input is required, either because the "
        + "assistant has a question, needs clarification, or seems to be stuck and "
        + "unable to answer without help.\n"
        + "\n"
        + "    The Assistant has access to a tool to write files. If the Assistant "
        + "says they have written a file, then you can assume they have done so.\n"
        + "    Overall you should give the Assistant the benefit of the doubt if "
        + "they say they've done something. But you should reject if you feel that "
        + "more work should go into this.\n"
        + "\n"
        + "    ",
    priorFeedback :=
        "Also, note that in a prior attempt from the Assistant, you provided "
        + "this feedback: ",
    repeatedMistakes :=
        "If you're seeing the Assistant repeating the same mistakes, then "
        + "consider responding that user input is required.")

  /** The critic's instruction, quoting the conversation, the criterion and the response under judgement. */
  function BasePrompt(texts: PromptTexts, conversation: string, criteria: string, lastResponse: string): string {
    texts.intro + conversation + texts.criteriaHeading + criteria + texts.responseHeading + lastResponse + texts.closing
  }

  /** The reminder of earlier feedback, with the instruction to ask for user input on repeated mistakes. */
  function FeedbackNote(texts: PromptTexts, feedback: string): string {
    (texts.priorFeedback + feedback + "\n") + texts.repeatedMistakes
  }

  /** Python truthiness of `feedback_on_work`: present and non-empty. */
  predicate HasPriorFeedback(state: State) {
    state.feedbackOnWork.Some? && state.feedbackOnWork.value != ""
  }

  /** The user message sent to the critic. */
  function UserPrompt(texts: PromptTexts, state: State): string
    requires |state.messages| > 0
  {
    var base := BasePrompt(texts, ConversationHeader + Transcript(state.messages), state.successCriteria,
                           state.messages[|state.messages| - 1].content);
    if HasPriorFeedback(state) then base + FeedbackNote(texts, state.feedbackOnWork.value) else base
  }

  /**
   * Earlier feedback only ever adds the note at the end: the rest of the
   * prompt is what it would be without any feedback.
   */
  lemma PromptNoteOnlyWithFeedback(texts: PromptTexts, state: State)
    requires |state.messages| > 0
    ensures HasPriorFeedback(state) ==>
              UserPrompt(texts, state) ==
              UserPrompt(texts, state.(feedbackOnWork := None)) + FeedbackNote(texts, state.feedbackOnWork.value)
    ensures !HasPriorFeedback(state) ==> UserPrompt(texts, state) == UserPrompt(texts, state.(feedbackOnWork := None))
  {
  }

  /** The update that records a judgement: one assistant message carrying the feedback, and the judgement's fields. */
  function UpdateFor(judgement: EvaluatorOutput): (update: StateUpdate)
    ensures |update.messages| == 1
    ensures update.messages[0].role == "assistant"
    ensures StartsWith(update.messages[0].content, FeedbackPrefix)
    ensures update.messages[0].content[|FeedbackPrefix|..] == judgement.feedback
    ensures update.feedbackOnWork == judgement.feedback
    ensures update.successCriteriaMet == judgement.successCriteriaMet
    ensures update.userInputNeeded == judgement.userInputNeeded
  {
    StateUpdate([RoleMessage("assistant", FeedbackPrefix + judgement.feedback)],
                judgement.feedback, judgement.successCriteriaMet, judgement.userInputNeeded)
  }

  /**
   * Builds the critic's prompt from `texts`: the rendered conversation, the
   * criterion and the latest reply, and the earlier feedback when there is
   * any.
   */
  method CriticPrompt(texts: PromptTexts, state: State) returns (prompt: Prompt)
    requires |state.messages| > 0
    ensures prompt == Prompt(texts.system, UserPrompt(texts, state))
  {
    var lastResponse := state.messages[|state.messages| - 1].content;
    var conversation := FormatConversation(state.messages);
    var userMessage := BasePrompt(texts, conversation, state.successCriteria, lastResponse);
    if state.feedbackOnWork.Some? && state.feedbackOnWork.value != "" {
      var feedback := state.feedbackOnWork.value;
      AppendAssoc(userMessage, texts.priorFeedback + feedback + "\n", texts.repeatedMistakes);
      userMessage := userMessage + (texts.priorFeedback + feedback + "\n");
      userMessage := userMessage + texts.repeatedMistakes;
    }
    prompt := Prompt(texts.system, userMessage);
  }

  /**
   * One evaluation: build the prompt with the evaluator's own texts (the note
   * on earlier feedback is appended only when there is such feedback), ask
   * the critic, and return the update. `None` is the structured-output
   * failure, which leaves nothing to fold in.
   */
  method Evaluate(state: State, judge: Prompt -> Option<EvaluatorOutput>)
    returns (prompt: Prompt, update: Option<StateUpdate>)
    requires |state.messages| > 0
    ensures prompt == Prompt(EvaluatorPrompts.system, UserPrompt(EvaluatorPrompts, state))
    ensures update.Some? <==> judge(prompt).Some?
    ensures update.Some? ==> update.value == UpdateFor(judge(prompt).value)
  {
    prompt := CriticPrompt(EvaluatorPrompts, state);
    var judgement := judge(prompt);
    match judgement {
      case None =>
        update := None;
      case Some(j) =>
        update := Some(StateUpdate([RoleMessage("assistant", FeedbackPrefix + j.feedback)],
                                   j.feedback, j.successCriteriaMet, j.userInputNeeded));
    }
  }

  // ---------------------------------------------------------------------------
  // Routing
  // ---------------------------------------------------------------------------

  /** The next node after an evaluation: the run ends on success or when user input is needed, otherwise the worker retries. */
  function RouteBasedOnEvaluation(state: State): (next: string)
    ensures next == EndRoute || next == WorkerRoute
    ensures next == EndRoute <==> state.successCriteriaMet || state.userInputNeeded
    ensures next == WorkerRoute <==> !state.successCriteriaMet && !state.userInputNeeded
  {
    if state.successCriteriaMet then EndRoute
    else if state.userInputNeeded then EndRoute
    else WorkerRoute
  }

  // ---------------------------------------------------------------------------
  // Folding an update into the state
  // ---------------------------------------------------------------------------

  /** The message object a role/content dictionary becomes in the state. */
  function ToMessage(m: RoleMessage): Message {
    if m.role == "assistant" then AI(m.content)
    else if m.role == "user" then Human(m.content)
    else Other(m.content)
  }

  /** Each dictionary becomes one message with the same content, of the kind its role names. */
  function ToMessages(ms: seq<RoleMessage>): (r: seq<Message>)
    ensures |r| == |ms|
    ensures forall k :: 0 <= k < |ms| ==>
              r[k].content == ms[k].content
              && (r[k].AI? <==> ms[k].role == "assistant")
              && (r[k].Human? <==> ms[k].role == "user")
  {
    seq(|ms|, k requires 0 <= k < |ms| => ToMessage(ms[k]))
  }

  /** Messages are appended; the feedback and both flags are overwritten. */
  function ApplyUpdate(state: State, update: StateUpdate): (next: State)
    ensures |next.messages| == |state.messages| + |update.messages|
    ensures next.messages[..|state.messages|] == state.messages
    ensures next.messages[|state.messages|..] == ToMessages(update.messages)
    ensures next.successCriteria == state.successCriteria
    ensures next.feedbackOnWork == Some(update.feedbackOnWork)
    ensures next.successCriteriaMet == update.successCriteriaMet
    ensures next.userInputNeeded == update.userInputNeeded
  {
    State(state.messages + ToMessages(update.messages), state.successCriteria,
          Some(update.feedbackOnWork), update.successCriteriaMet, update.userInputNeeded)
  }

  /** After a judgement is folded in, the route depends on the judgement alone, with success taking priority. */
  lemma RouteAfterEvaluation(state: State, judgement: EvaluatorOutput)
    ensures RouteBasedOnEvaluation(ApplyUpdate(state, UpdateFor(judgement))) ==
            if judgement.successCriteriaMet then EndRoute
            else if judgement.userInputNeeded then EndRoute
            else WorkerRoute
  {
  }

  /**
   * Feedback survives the worker's turn. After a judgement with non-empty
   * feedback is folded in and the worker appends its turn (`more`, at least
   * one message), the next prompt quotes the conversation as the earlier
   * messages, the evaluator's own line and the worker's lines, judges the
   * worker's last message, and ends with the note quoting that feedback.
   */
  lemma {:induction false} FeedbackReachesNextPrompt(texts: PromptTexts, state: State, judgement: EvaluatorOutput, more: seq<Message>)
    requires judgement.feedback != ""
    requires |more| > 0
    ensures Line(AI(FeedbackPrefix + judgement.feedback)) == "Assistant: " + (FeedbackPrefix + judgement.feedback) + "\n"
    ensures var folded := ApplyUpdate(state, UpdateFor(judgement));
            UserPrompt(texts, folded.(messages := folded.messages + more)) ==
            BasePrompt(texts,
                       ConversationHeader
                       + (Transcript(state.messages) + Line(AI(FeedbackPrefix + judgement.feedback)) + Transcript(more)),
                       state.successCriteria, more[|more| - 1].content)
            + FeedbackNote(texts, judgement.feedback)
  {
    var fed := AI(FeedbackPrefix + judgement.feedback);
    var later := WorkerTurnAfterFold(state, judgement, more);
    TranscriptSnoc(state.messages, fed);
    TranscriptAppend(state.messages + [fed], more);
    assert later.messages[|later.messages| - 1] == more[|more| - 1];
    assert HasPriorFeedback(later);
  }

  /** The state after a judgement is folded in and the worker appends `more`. */
  lemma WorkerTurnAfterFold(state: State, judgement: EvaluatorOutput, more: seq<Message>)
    returns (later: State)
    ensures var folded := ApplyUpdate(state, UpdateFor(judgement));
            later == folded.(messages := folded.messages + more)
    ensures later == State(state.messages + [AI(FeedbackPrefix + judgement.feedback)] + more, state.successCriteria,
                           Some(judgement.feedback), judgement.successCriteriaMet, judgement.userInputNeeded)
  {
    var folded := ApplyUpdate(state, UpdateFor(judgement));
    assert ToMessages(UpdateFor(judgement).messages) == [AI(FeedbackPrefix + judgement.feedback)];
    later := folded.(messages := folded.messages + more);
  }
}
