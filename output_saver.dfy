/**
 * The markdown export of a finished conversation: the document layout, the
 * choice of the final output, and the file name derived from the request.
 *
 * The clock is not modelled: both timestamps (the date line of the document
 * and the stamp of the file name) are parameters. Writing the file is an
 * oracle `write` that says whether the write went through.
 */
module OutputSaver {
  import opened Wrappers
  import opened Text

  /**
   * One entry of the exported history, a role/content dictionary; a key that
   * is absent is `None` here and reads as the empty string.
   */
  datatype Entry = Entry(role: Option<string>, content: Option<string>)

  function RoleOf(e: Entry): string {
    e.role.GetOr("")
  }

  function ContentOf(e: Entry): string {
    e.content.GetOr("")
  }

  const UserRole := "user"
  const AssistantRole := "assistant"
  const Title := "# Sidekick Conversation Output\n\n"
  const FinalOutputHeading := "## Final Output\n\n"
  /** An assistant entry whose content contains this is rendered as evaluator feedback. */
  const FeedbackMarker := "Evaluator Feedback"
  /** The prefix removed from evaluator feedback before it is rendered. */
  const StrippedPrefix := "Evaluator Feedback on this answer: "

  // ---------------------------------------------------------------------------
  // The document
  // ---------------------------------------------------------------------------

  /** What one history entry contributes under "## Conversation". */
  function RenderEntry(e: Entry): string {
    var content := ContentOf(e);
    if RoleOf(e) == UserRole then "### User\n\n" + content + "\n\n"
    else if RoleOf(e) == AssistantRole then
      if Contains(content, FeedbackMarker) then
        "### Evaluator Feedback\n\n" + ReplaceAll(content, StrippedPrefix, "") + "\n\n"
      else "### Assistant\n\n" + content + "\n\n"
    else ""
  }

  /** The conversation section: the entries rendered in history order. */
  function Body(history: seq<Entry>): string
    decreases |history|
  {
    if history == [] then "" else RenderEntry(history[0]) + Body(history[1..])
  }

  /**
   * The final output: the content of the second-to-last entry when that entry
   * is the assistant's, and nothing otherwise (also when there are fewer than
   * two entries).
   */
  function FinalResponse(history: seq<Entry>): string {
    if |history| >= 2 && RoleOf(history[|history| - 2]) == AssistantRole
    then ContentOf(history[|history| - 2])
    else ""
  }

  /** Everything before the conversation entries: title, date, request, criteria and the conversation heading. */
  function Header(message: string, successCriteria: string, dateStamp: string): string {
    Title
    + ("**Date:** " + dateStamp + "\n\n")
    + "## Original Request\n\n"
    + (message + "\n\n")
    + "## Success Criteria\n\n"
    + (successCriteria + "\n\n")
    + "## Conversation\n\n"
  }

  /** The whole exported document. */
  function Document(message: string, successCriteria: string, history: seq<Entry>, dateStamp: string): string {
    Header(message, successCriteria, dateStamp) + Body(history) + FinalOutputHeading + FinalResponse(history)
  }

  lemma {:induction false} BodyAppend(a: seq<Entry>, b: seq<Entry>)
    ensures Body(a + b) == Body(a) + Body(b)
    decreases |a|
  {
    if a == [] {
      assert a + b == b;
    } else {
      assert (a + b)[0] == a[0];
      assert (a + b)[1..] == a[1..] + b;
      BodyAppend(a[1..], b);
      AppendAssoc(RenderEntry(a[0]), Body(a[1..]), Body(b));
    }
  }

  lemma BodySnoc(history: seq<Entry>, e: Entry)
    ensures Body(history + [e]) == Body(history) + RenderEntry(e)
  {
    assert Body([e]) == RenderEntry(e) by {
      assert [e][1..] == [];
      assert RenderEntry(e) + "" == RenderEntry(e);
    }
    BodyAppend(history, [e]);
  }

  /**
   * The markdown document; the loop renders each entry in turn and remembers
   * the second-to-last entry's content when it is the assistant's.
   */
  method FormatConversationAsMarkdown(message: string, successCriteria: string, history: seq<Entry>, dateStamp: string)
    returns (markdown: string)
    ensures markdown == Document(message, successCriteria, history, dateStamp)
  {
    markdown := Title;
    markdown := markdown + ("**Date:** " + dateStamp + "\n\n");
    markdown := markdown + "## Original Request\n\n";
    markdown := markdown + (message + "\n\n");
    markdown := markdown + "## Success Criteria\n\n";
    markdown := markdown + (successCriteria + "\n\n");
    markdown := markdown + "## Conversation\n\n";
    ghost var header := markdown;
    var finalResponse := "";
    ghost var done: seq<Entry> := [];
    for i := 0 to |history|
      invariant done == history[..i]
      invariant markdown == header + Body(done)
      invariant finalResponse ==
                  if 0 <= |history| - 2 < i && RoleOf(history[|history| - 2]) == AssistantRole
                  then ContentOf(history[|history| - 2]) else ""
    {
      var entry := history[i];
      var role := entry.role.GetOr("");
      var content := entry.content.GetOr("");
      BodySnoc(done, entry);
      AppendAssoc(header, Body(done), RenderEntry(entry));
      if role == "user" {
        markdown := markdown + ("### User\n\n" + content + "\n\n");
      } else if role == "assistant" {
        if i == |history| - 2 {
          finalResponse := content;
        }
        if Contains(content, "Evaluator Feedback") {
          markdown := markdown + ("### Evaluator Feedback\n\n" + ReplaceAll(content, StrippedPrefix, "") + "\n\n");
        } else {
          markdown := markdown + ("### Assistant\n\n" + content + "\n\n");
        }
      } else {
        assert markdown + "" == markdown;
      }
      PrefixSnoc(history, i);
      done := done + [entry];
    }
    assert done == history;
    markdown := markdown + "## Final Output\n\n";
    markdown := markdown + finalResponse;
  }

  /** An entry whose role is neither user nor assistant (a missing role included) leaves the document unchanged. */
  lemma UnknownRolesRenderNothing(a: seq<Entry>, e: Entry, b: seq<Entry>)
    requires RoleOf(e) != UserRole && RoleOf(e) != AssistantRole
    ensures Body(a + [e] + b) == Body(a + b)
  {
    BodyAppend(a + [e], b);
    BodySnoc(a, e);
    BodyAppend(a, b);
    assert Body(a) + "" == Body(a);
  }

  /**
   * In a history that ends with the worker's reply followed by the
   * evaluator's feedback, the final output is the worker's reply, whatever
   * came before.
   */
  lemma FinalResponseIsReplyBeforeFeedback(earlier: seq<Entry>, reply: Entry, feedback: Entry)
    requires RoleOf(reply) == AssistantRole
    ensures FinalResponse(earlier + [reply, feedback]) == ContentOf(reply)
  {
    var h := earlier + [reply, feedback];
    assert h[|h| - 2] == reply;
  }

  /** Appending entries changes the document only in the conversation section and the final output. */
  lemma DocumentExtends(message: string, successCriteria: string, history: seq<Entry>, more: seq<Entry>, dateStamp: string)
    ensures Document(message, successCriteria, history + more, dateStamp) ==
            Header(message, successCriteria, dateStamp) + (Body(history) + Body(more))
            + FinalOutputHeading + FinalResponse(history + more)
  {
    BodyAppend(history, more);
    AppendAssoc(Header(message, successCriteria, dateStamp), Body(history), Body(more));
  }

  // ---------------------------------------------------------------------------
  // The file name
  // ---------------------------------------------------------------------------

  /** The first five whitespace-separated words of the request (fewer if it has fewer). */
  function FirstWords(message: string): (ws: seq<string>)
    ensures |ws| <= 5 && |ws| <= |Words(message)|
    ensures ws == Words(message)[..|ws|]
    ensures |ws| < 5 ==> ws == Words(message)
  {
    var all := Words(message);
    if |all| <= 5 then all else all[..5]
  }

  lemma LowerKeepsAlnum(w: string)
    requires IsAlnum(w)
    ensures IsAlnum(Lower(w)) && HasNoUpper(Lower(w))
  {
  }

  /** The alphanumeric words, lower-cased, in order. */
  function SlugWords(words: seq<string>): (slug: seq<string>)
    ensures |slug| <= |words|
    ensures forall k :: 0 <= k < |slug| ==> IsAlnum(slug[k]) && HasNoUpper(slug[k])
    ensures slug == [] <==> forall k :: 0 <= k < |words| ==> !IsAlnum(words[k])
    decreases |words|
  {
    if words == [] then []
    else
      var rest := SlugWords(words[1..]);
      if IsAlnum(words[0]) then
        LowerKeepsAlnum(words[0]);
        [Lower(words[0])] + rest
      else rest
  }

  /** Filtering and lower-casing work word by word: the kept words of a concatenation are those of each part, in order. */
  lemma {:induction false} SlugWordsAppend(a: seq<string>, b: seq<string>)
    ensures SlugWords(a + b) == SlugWords(a) + SlugWords(b)
    decreases |a|
  {
    if a == [] {
      assert a + b == b;
    } else {
      var head := if IsAlnum(a[0]) then [Lower(a[0])] else [];
      assert (a + b)[0] == a[0];
      assert (a + b)[1..] == a[1..] + b;
      SlugWordsAppend(a[1..], b);
      AppendAssoc(head, SlugWords(a[1..]), SlugWords(b));
    }
  }

  /** A single word is kept, lower-cased, exactly when it is alphanumeric. */
  lemma SlugWordsSingle(w: string)
    ensures SlugWords([w]) == if IsAlnum(w) then [Lower(w)] else []
  {
    assert [w][1..] == [];
  }

  /** The slug: the kept words joined with underscores; it may be empty. */
  function Slug(message: string): string {
    Join(SlugWords(FirstWords(message)), "_")
  }

  /** The file name: the stamp, an underscore, the slug and the `.md` extension. */
  function MarkdownFileName(fileStamp: string, slug: string): (name: string)
    ensures StartsWith(name, fileStamp + "_")
    ensures |name| >= 3 && name[|name| - 3..] == ".md"
  {
    StartsWithAppend(fileStamp + "_", slug + ".md");
    assert fileStamp + "_" + slug + ".md" == (fileStamp + "_") + (slug + ".md");
    fileStamp + "_" + slug + ".md"
  }

  /** A file name never starts with `/` unless its stamp does. */
  lemma FileNameIsRelative(fileStamp: string, slug: string)
    requires !StartsWith(fileStamp, "/")
    ensures !StartsWith(MarkdownFileName(fileStamp, slug), "/")
  {
    var name := MarkdownFileName(fileStamp, slug);
    if fileStamp == [] {
      assert name[0] == '_';
    } else {
      assert name[0] == fileStamp[0];
    }
  }

  /** The slug is empty exactly when none of the first five words is alphanumeric. */
  lemma SlugEmptyIff(message: string)
    ensures Slug(message) == "" <==> forall k :: 0 <= k < |FirstWords(message)| ==> !IsAlnum(FirstWords(message)[k])
  {
    JoinIsEmpty(SlugWords(FirstWords(message)), "_");
  }

  /** Splitting a non-empty slug on `_` gives back the kept words, since alphanumeric words hold no underscore. */
  lemma SlugSplits(message: string)
    requires Slug(message) != ""
    ensures SplitOn(Slug(message), '_') == SlugWords(FirstWords(message))
  {
    var parts := SlugWords(FirstWords(message));
    assert parts != [];
    assert forall k, i :: 0 <= k < |parts| && 0 <= i < |parts[k]| ==> parts[k][i] != '_' by {
      forall k, i | 0 <= k < |parts| && 0 <= i < |parts[k]|
        ensures parts[k][i] != '_'
      {
        assert IsAlnumChar(parts[k][i]);
      }
    }
    assert "_" == ['_'];
    SplitOfJoin(parts, '_');
  }

  /** Words that `SlugWords` keeps as they are: alphanumeric and already lower-case. */
  predicate PlainWords(ws: seq<string>) {
    forall k :: 0 <= k < |ws| ==> IsAlnum(ws[k]) && HasNoUpper(ws[k])
  }

  lemma {:induction false} SlugWordsOfPlainWords(ws: seq<string>)
    requires PlainWords(ws)
    ensures SlugWords(ws) == ws
    decreases |ws|
  {
    if ws != [] {
      assert PlainWords(ws[1..]);
      SlugWordsOfPlainWords(ws[1..]);
      assert Lower(ws[0]) == ws[0];
      assert [ws[0]] + ws[1..] == ws;
    }
  }

  lemma AlnumIsWord(w: string)
    requires IsAlnum(w)
    ensures IsWord(w)
  {
    assert forall i :: 0 <= i < |w| ==> IsAlnumChar(w[i]);
  }

  lemma PlainWordsAreWords(ws: seq<string>)
    requires PlainWords(ws)
    ensures forall k :: 0 <= k < |ws| ==> IsWord(ws[k])
  {
    forall k | 0 <= k < |ws|
      ensures IsWord(ws[k])
    {
      AlnumIsWord(ws[k]);
    }
  }

  lemma PlainWordsPrefix(ws: seq<string>, n: nat)
    requires PlainWords(ws) && n <= |ws|
    ensures PlainWords(ws[..n])
  {
    assert forall k :: 0 <= k < n ==> ws[..n][k] == ws[k];
  }

  /**
   * A request made of lower-case alphanumeric words separated by single
   * spaces has as slug its first five words joined with underscores.
   */
  lemma SlugOfPlainRequest(ws: seq<string>)
    requires PlainWords(ws)
    ensures Slug(Join(ws, " ")) == Join(if |ws| <= 5 then ws else ws[..5], "_")
  {
    var message := Join(ws, " ");
    PlainWordsAreWords(ws);
    WordsOfJoin(ws);
    var first := if |ws| <= 5 then ws else ws[..5];
    assert FirstWords(message) == first;
    PlainWordsPrefix(ws, |first|);
    assert ws[..|first|] == first;
    SlugWordsOfPlainWords(first);
  }

  // ---------------------------------------------------------------------------
  // Saving
  // ---------------------------------------------------------------------------

  /**
   * Renders the document and writes it to `outputDir` joined with the file
   * name; the result is that path when the write goes through and the empty
   * string when it fails.
   */
  method SaveConversationToMarkdown(
    message: string, successCriteria: string, history: seq<Entry>,
    fileStamp: string, dateStamp: string, write: (string, string) -> bool,
    outputDir: string := "outputs")
    returns (path: string)
    ensures var target := PathJoin(outputDir, MarkdownFileName(fileStamp, Slug(message)));
            path == if write(target, Document(message, successCriteria, history, dateStamp)) then target else ""
    ensures path != "" ==> |path| >= 3 && path[|path| - 3..] == ".md"
  {
    var slug := Join(SlugWords(FirstWords(message)), "_");
    var filename := fileStamp + "_" + slug + ".md";
    var filePath := PathJoin(outputDir, filename);
    var markdownContent := FormatConversationAsMarkdown(message, successCriteria, history, dateStamp);
    if write(filePath, markdownContent) {
      path := filePath;
      assert path[|path| - |filename|..] == filename;
      assert path[|path| - 3..] == filename[|filename| - 3..];
    } else {
      path := "";
    }
  }
}
