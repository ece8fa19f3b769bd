# Sidekick: evaluator and conversation export, modelled in Dafny

Sidekick is a worker/evaluator agent. A worker model answers the user's
request with the help of tools. After each answer an evaluator model judges
it against the user's success criterion. The judgement either ends the run or
sends the worker back with feedback. A finished conversation can be exported
as a markdown file, either by the export utility or by a tool that the agent
itself calls.

This project models the deterministic parts of that loop:

- `evaluator.dfy` (module `Evaluator`) models `sidekick/core/evaluator.py`.
  - `FormatConversation` renders the conversation for the critic. It is a
    loop, proved against the specification function `Transcript`.
  - `CriticPrompt` assembles the critic's prompt. The prompt texts are a
    `PromptTexts` record, and `EvaluatorPrompts` holds the evaluator's texts
    character for character.
  - `Evaluate` asks the critic and turns its judgement into a state update.
  - `RouteBasedOnEvaluation` routes on the judgement.
  - `ApplyUpdate` folds an update into the state, so that properties across
    two evaluations can be stated.
- `output_saver.dfy` (module `OutputSaver`) models
  `sidekick/utils/output_saver.py`.
  - `FormatConversationAsMarkdown` builds the markdown document. It is a loop,
    proved against the specification function `Document`.
  - The slug and the file name are derived from the request.
  - `SaveConversationToMarkdown` saves the document.
- `output_tools.py` is modelled by `output_tools.dfy` (module `OutputTools`).
  - `FindWriteFileTool` is the first-match search for the `write_file` tool.
  - The argument defaults, the output-directory normalisation, the slug with
    its `conversation` fallback and the relative path are modelled.
  - `SaveConversationToolFn` chooses between the tool write and the direct
    write, and picks the return value.
- `feedback_export.dfy` (module `FeedbackExport`) states the cross-file
  contract. The prefix that the evaluator puts on its message is the prefix
  that the export recognises and strips.
- `text.dfy` (module `Text`) models the Python string operations these files
  use: `split()`, `strip()`, `lstrip(c)`, `isalnum()`, `lower()`,
  `sep.join`, `replace` and `in`. It also models POSIX `os.path.join` for two
  components. `SplitOn` (Python's `split(sep)`) is not used by the program;
  it only serves to state that a join can be undone.
- `wrappers.dfy` (module `Wrappers`) holds `Option`.

Several things outside the program become parameters:

- The language model is an oracle `judge: Prompt -> Option<EvaluatorOutput>`.
  `None` stands for a structured-output call that raised.
- The clock becomes timestamp strings.
- The file system becomes oracles that say whether a write went through.
- The list of file tools is a parameter.

Three points where the code and the prose description of the system differ.
The model follows the code in each:

- The subject of judgement is the content of the last message of any kind,
  not specifically the last assistant message.
- The prior-feedback note is added only when the feedback is non-empty, not
  merely when it is present.
- Both "criteria met" and "user input needed" route to `END`. There is no
  separate outcome that waits for the user.

## Model

| member | source | states |
|---|---|---|
| `Evaluator.FormatConversation` | sidekick/core/evaluator.py:24-41 | The loop's result is the header `Conversation history:\n\n` followed by the rendering of the messages in order (`Transcript`). Each human message renders as `User: <text>\n`. Each AI message renders as `Assistant: <text>\n`, with `[Tools use]` when its text is empty. Any other message renders as nothing. |
| `Evaluator.TranscriptAppend` | sidekick/core/evaluator.py:35-40 | Rendering distributes over concatenation of message lists, so order is preserved and the parts do not interact. |
| `Evaluator.TranscriptLines` | sidekick/core/evaluator.py:34-41 | When no message text contains a newline, splitting the rendering on newlines gives exactly one line per human or AI message, in input order. |
| `Evaluator.OtherMessagesRenderNothing` | sidekick/core/evaluator.py:35-40 | A message that is neither human nor AI can be removed from any position without changing the rendering. |
| `Evaluator.PromptNoteOnlyWithFeedback` | sidekick/core/evaluator.py:77-79 | With non-empty prior feedback, the prompt is the prompt without feedback followed by the note quoting the feedback and the repeated-mistakes instruction. Otherwise it is exactly the prompt without feedback. |
| `Evaluator.UpdateFor` | sidekick/core/evaluator.py:87-97 | The update has exactly one message. Its role is `assistant` and its content is `Evaluator Feedback on this answer: ` followed by the feedback. `feedback_on_work` is the judgement's feedback, and both flags are copied from the judgement. |
| `Evaluator.CriticPrompt` | sidekick/core/evaluator.py:53-79 | The system message is the fixed instruction. The user message is the instruction quoting the rendered conversation, the success criterion and the last message's content, followed by the feedback note exactly when `HasPriorFeedback`. |
| `Evaluator.Evaluate` | sidekick/core/evaluator.py:43-98 | The prompt is built from the evaluator's own texts. There is an update exactly when the critic returns a judgement, and that update is `UpdateFor` of it. A non-empty message list is required. |
| `Evaluator.RouteBasedOnEvaluation` | sidekick/core/evaluator.py:100-118 | The route is always `END` or `worker`. It is `END` exactly when the criteria are met or user input is needed, and `worker` exactly when both flags are false. |
| `Evaluator.ToMessages` | sidekick/core/evaluator.py:88-93 | Each role/content dictionary becomes one message with the same content: an AI message exactly when the role is `assistant`, a human message exactly when it is `user`. |
| `Evaluator.ApplyUpdate` | sidekick/core/evaluator.py:87-97 | Folding an update into the state keeps every earlier message and appends the update's messages after them, keeps the success criterion, and sets the feedback and both flags to the update's. |
| `Evaluator.RouteAfterEvaluation` | sidekick/core/evaluator.py:110-118 | After a judgement is folded in, the route depends only on the judgement: success first, then user input needed, otherwise the worker. |
| `Evaluator.FeedbackReachesNextPrompt` | sidekick/core/evaluator.py:53-97 | After a judgement with non-empty feedback is folded in and the worker appends its turn (at least one message), the next prompt's conversation is the earlier messages, the evaluator's line `Assistant: Evaluator Feedback on this answer: …` and the worker's lines; the worker's last message is judged; and the prompt ends with the note quoting that feedback. |
| `OutputSaver.FormatConversationAsMarkdown` | sidekick/utils/output_saver.py:53-107 | The loop's result is `Document`. That is, in order: the title, the date line, the original request, the success criteria, the conversation entries rendered in history order, and the final output, with which the document ends. |
| `OutputSaver.BodyAppend` | sidekick/utils/output_saver.py:88-101 | The conversation section of a concatenated history is the two sections one after the other. |
| `OutputSaver.UnknownRolesRenderNothing` | sidekick/utils/output_saver.py:89-101 | An entry whose role is neither `user` nor `assistant`, including a missing role, can be removed from any position without changing the conversation section. |
| `OutputSaver.FinalResponseIsReplyBeforeFeedback` | sidekick/utils/output_saver.py:86-105 | When the history ends with an assistant entry followed by any entry, the final output is that assistant entry's content. |
| `OutputSaver.DocumentExtends` | sidekick/utils/output_saver.py:72-105 | Appending entries to the history leaves the header as it was. It appends their rendering to the conversation section, and only the final output is re-chosen. |
| `OutputSaver.FirstWords` | sidekick/utils/output_saver.py:33 | At most five words. They are a prefix of the whitespace-split request, and they are all of it when fewer than five. |
| `OutputSaver.SlugWords` | sidekick/utils/output_saver.py:34 | No more words than given. Each kept word is alphanumeric and has no upper-case letter. Nothing is kept exactly when no given word is alphanumeric. |
| `OutputSaver.SlugWordsAppend` | sidekick/utils/output_saver.py:34 | The kept words of a concatenation are the kept words of each part, in order. |
| `OutputSaver.SlugWordsSingle` | sidekick/utils/output_saver.py:34 | A single word is kept as its lower-case form exactly when it is alphanumeric, and dropped otherwise. |
| `OutputSaver.SlugEmptyIff` | sidekick/utils/output_saver.py:33-34 | The slug is empty exactly when none of the first five words is alphanumeric. |
| `OutputSaver.SlugSplits` | sidekick/utils/output_saver.py:34 | Splitting a non-empty slug on `_` gives back the kept, lower-cased words. |
| `OutputSaver.SlugOfPlainRequest` | sidekick/utils/output_saver.py:33-34 | For a request of lower-case alphanumeric words separated by single spaces, the slug is its first five words joined with `_`. |
| `OutputSaver.MarkdownFileName` | sidekick/utils/output_saver.py:37 | The file name starts with the stamp and `_` and ends with `.md`. |
| `OutputSaver.FileNameIsRelative` | sidekick/utils/output_saver.py:37 | A file name starts with `/` only if its stamp does. |
| `OutputSaver.SaveConversationToMarkdown` | sidekick/utils/output_saver.py:8-51 | The result is the output directory (by default `outputs`) joined with the file name when the write of the document goes through, and `""` when it fails. A non-empty result ends with `.md`. |
| `OutputTools.FirstWriteFileTool` | sidekick/tools/output_tools.py:20-24 | `None` exactly when no tool is named `write_file`. Otherwise it is a tool named `write_file` with no such tool before it. |
| `OutputTools.FindWriteFileTool` | sidekick/tools/output_tools.py:13-24 | The loop with early return finds `FirstWriteFileTool`. |
| `OutputTools.MarkdownText` | sidekick/tools/output_tools.py:41-52 | A text argument that is absent reads as `""`; one that is `None` is formatted into the document as `None`; a given one is itself. |
| `OutputTools.SlugSource` | sidekick/tools/output_tools.py:56 | The slug reads an absent or `None` message as `""`, and a given one as itself. |
| `OutputTools.HistoryOf` | sidekick/tools/output_tools.py:43 | An absent history is the empty list; a given one is itself. |
| `OutputTools.NormalizedOutputDir` | sidekick/tools/output_tools.py:45 | The directory never starts with `/`. It is `outputs` when the argument is absent. |
| `OutputTools.ToolSlug` | sidekick/tools/output_tools.py:56-57 | The slug is never empty. |
| `OutputTools.ToolSlugFallback` | sidekick/tools/output_tools.py:56-57 | The slug is `conversation` when none of the first five words is alphanumeric (an absent or `None` message included), and the export slug otherwise. |
| `OutputTools.ToolPath` | sidekick/tools/output_tools.py:54-63 | The relative path is never empty. |
| `OutputTools.ToolPathIsRelative` | sidekick/tools/output_tools.py:45 | The relative path does not start with `/` unless the file stamp does. |
| `OutputTools.ReplyText` | sidekick/tools/output_tools.py:72 | After a successful call, the result is the tool's own string when the tool returned a non-empty string, and the relative path in every other case. It is never empty when the path is not. |
| `OutputTools.SaveConversationToolFn` | sidekick/tools/output_tools.py:27-83 | A `None` output directory or history raises. Otherwise, when a `write_file` tool exists and its call succeeds, the result is `ReplyText`. Else a direct write of the same path returns that path, or raises. A returned path is never empty. |
| `FeedbackExport.PrefixesAgree` | sidekick/utils/output_saver.py:98-99 | The prefix the export strips is the prefix the evaluator adds, and it starts with the marker `Evaluator Feedback` the export looks for. |
| `FeedbackExport.EvaluatorMessageRendersAsFeedback` | sidekick/utils/output_saver.py:98-99 | The evaluator's message is rendered under `### Evaluator Feedback` as the feedback with every occurrence of the prefix removed. |
| `FeedbackExport.FeedbackRoundTrip` | sidekick/utils/output_saver.py:98-99 | Feedback that does not contain the prefix is exported exactly as the critic wrote it. |
| `FeedbackExport.FinalOutputSkipsFeedback` | sidekick/utils/output_saver.py:95-96 | In a history ending with the worker's answer and then the evaluator's message, the final output is the worker's answer. |

## Left out

- The language model is not modelled: `ChatOpenAI`, `with_structured_output` and the call at `evaluator.py:86` are replaced by the `judge` oracle.
- `datetime.now` becomes two parameters: the date line of the document and the file stamp.
- File-system effects are out of scope: `os.makedirs`, `open` and `write`. Each write is an oracle that says whether it went through.
- `save_conversation_to_markdown` lets a failing `os.makedirs` raise, because the call is outside its `try`. That path is not modelled.
- In the tool, a failing `makedirs` or `open` on the fallback path is modelled as the direct write failing, which raises.
- `get_file_tools` (sidekick/tools/file_tools.py) is not part of this model. Its list of tools is a parameter.
- The write tool's `invoke` and its `AttributeError` fallback to calling the tool are folded into one oracle. The oracle returns a string, another value, or an exception.
- `get_output_saver_tool` only registers the tool with its name and description, so it has no behaviour to model.
- `isspace`, `isalnum` and `lower` are modelled over ASCII only. Python's Unicode classes are not modelled.
- Message contents are modelled as text. LangChain's list-of-parts contents are not modelled, and neither are history values that are not strings.
- Evaluator.Evaluate: an empty message list makes the source raise `IndexError`. The model requires a non-empty list instead.
- Evaluator.FeedbackReachesNextPrompt: the worker node is not part of this model. Its turn is taken to append messages and leave the other fields unchanged.
- Evaluator.ApplyUpdate: the state reducer (sidekick/core/state.py) is not part of this model. The model takes its `add_messages` to append and the other keys to be overwritten.
- The worker loop and graph construction are not among the modelled files, nor are tool dispatch, checkpointing, the UI, the browser, search, notification and Python tools, the memory store and settings.
- Logging is not modelled.
