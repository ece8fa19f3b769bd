/**
 * The conversation-saving tool offered to the agent: it renders the same
 * markdown document as the export utility, names the file after the request
 * (never with an empty slug), and writes it through the sandboxed
 * `write_file` tool when one is available, falling back to a direct write.
 *
 * The clock is not modelled (both stamps are parameters); the list of file
 * tools, the call of the write tool and the direct write are parameters too.
 */
module OutputTools {
  import opened Wrappers
  import opened Text
  import opened OutputSaver

  /** A tool object; `name` is `None` when the object has no `name` attribute. */
  datatype Tool = Tool(name: Option<string>, description: string)

  /** `getattr(t, "name", "")`. */
  function ToolName(t: Tool): string {
    t.name.GetOr("")
  }

  const WriteFileName := "write_file"
  const DefaultOutputDir := "outputs"
  const FallbackSlug := "conversation"

  // ---------------------------------------------------------------------------
  // Finding the write tool
  // ---------------------------------------------------------------------------

  /** The first tool named `write_file`, if any. */
  function FirstWriteFileTool(tools: seq<Tool>): (found: Option<Tool>)
    ensures found.None? <==> forall k :: 0 <= k < |tools| ==> ToolName(tools[k]) != WriteFileName
    ensures found.Some? ==>
              exists k :: 0 <= k < |tools| && tools[k] == found.value && ToolName(tools[k]) == WriteFileName
                          && forall j :: 0 <= j < k ==> ToolName(tools[j]) != WriteFileName
    decreases |tools|
  {
    if tools == [] then None
    else if ToolName(tools[0]) == WriteFileName then Some(tools[0])
    else
      var found := FirstWriteFileTool(tools[1..]);
      assert found.Some? ==> exists k :: 1 <= k < |tools| && tools[k] == found.value && ToolName(tools[k]) == WriteFileName
                                         && forall j :: 0 <= j < k ==> ToolName(tools[j]) != WriteFileName;
      found
  }

  /** The linear search: the loop stops at the first tool named `write_file`. */
  method FindWriteFileTool(tools: seq<Tool>) returns (found: Option<Tool>)
    ensures found == FirstWriteFileTool(tools)
  {
    for i := 0 to |tools|
      invariant FirstWriteFileTool(tools[i..]) == FirstWriteFileTool(tools)
    {
      assert tools[i..][1..] == tools[i + 1..];
      if ToolName(tools[i]) == "write_file" {
        return Some(tools[i]);
      }
    }
    assert tools[|tools|..] == [];
    return None;
  }

  // ---------------------------------------------------------------------------
  // Arguments
  // ---------------------------------------------------------------------------

  /** A value of the argument dictionary: absent, present but `None`, or given. */
  datatype Field<T> = Missing | Null | Given(value: T)

  /** The tool's argument dictionary. */
  datatype Args = Args(
    message: Field<string>,
    successCriteria: Field<string>,
    conversationHistory: Field<seq<Entry>>,
    outputDir: Field<string>)

  /**
   * A text argument as the markdown shows it: an absent key defaults to the
   * empty string, and a `None` value is formatted as `None`.
   */
  function MarkdownText(f: Field<string>): (text: string)
    ensures f.Missing? ==> text == ""
    ensures f.Null? ==> text == "None"
    ensures f.Given? ==> text == f.value
  {
    match f
    case Missing => ""
    case Null => "None"
    case Given(s) => s
  }

  /** The request as the slug reads it (`message or ""`): absent and `None` are both empty. */
  function SlugSource(f: Field<string>): (text: string)
    ensures !f.Given? ==> text == ""
    ensures f.Given? ==> text == f.value
  {
    if f.Given? then f.value else ""
  }

  /** The history argument; an absent key is the empty history (`None` is not: iterating it raises). */
  function HistoryOf(f: Field<seq<Entry>>): (history: seq<Entry>)
    requires !f.Null?
    ensures f.Missing? ==> history == []
    ensures f.Given? ==> history == f.value
  {
    if f.Given? then f.value else []
  }

  /**
   * The output directory relative to the sandbox root: the argument (by
   * default `outputs`) with surrounding whitespace removed and then every
   * leading `/`.
   */
  function NormalizedOutputDir(f: Field<string>): (dir: string)
    requires !f.Null?
    ensures dir == [] || dir[0] != '/'
    ensures f.Missing? ==> dir == DefaultOutputDir
  {
    var raw := if f.Given? then f.value else DefaultOutputDir;
    StripUnpadded(DefaultOutputDir);
    LStrip(Strip(raw), '/')
  }

  /** The tool's slug: the export slug, or `conversation` when that is empty. */
  function ToolSlug(message: string): (slug: string)
    ensures slug != ""
  {
    var s := Slug(message);
    if s == "" then FallbackSlug else s
  }

  /** The tool falls back to `conversation` exactly when none of the first five words is alphanumeric. */
  lemma ToolSlugFallback(message: string)
    ensures ToolSlug(message) ==
            if forall k :: 0 <= k < |FirstWords(message)| ==> !IsAlnum(FirstWords(message)[k])
            then FallbackSlug else Slug(message)
  {
    SlugEmptyIff(message);
  }

  /** The path the tool writes to, relative to the sandbox root. */
  function ToolPath(args: Args, fileStamp: string): (path: string)
    requires !args.outputDir.Null?
    ensures path != ""
  {
    var name := MarkdownFileName(fileStamp, ToolSlug(SlugSource(args.message)));
    PathJoin(NormalizedOutputDir(args.outputDir), name)
  }

  /** The document the tool writes. */
  function ToolDocument(args: Args, dateStamp: string): string
    requires !args.conversationHistory.Null?
  {
    Document(MarkdownText(args.message), MarkdownText(args.successCriteria),
             HistoryOf(args.conversationHistory), dateStamp)
  }

  /** The path never leaves the sandbox root through a leading `/`, as long as the file stamp does not start with one. */
  lemma ToolPathIsRelative(args: Args, fileStamp: string)
    requires !args.outputDir.Null?
    requires !StartsWith(fileStamp, "/")
    ensures !StartsWith(ToolPath(args, fileStamp), "/")
  {
    var dir := NormalizedOutputDir(args.outputDir);
    var slug := ToolSlug(SlugSource(args.message));
    var name := MarkdownFileName(fileStamp, slug);
    FileNameIsRelative(fileStamp, slug);
    assert !StartsWith(dir, "/") by {
      if dir != [] {
        assert dir[..1][0] == dir[0];
      }
    }
    assert ToolPath(args, fileStamp) == PathJoin(dir, name);
  }

  // ---------------------------------------------------------------------------
  // Saving
  // ---------------------------------------------------------------------------

  /** What calling the write tool gave: a string, another kind of value, or an exception. */
  datatype CallOutcome = ReturnedText(text: string) | ReturnedOther | CallFailed

  /** How the tool function ends: with a path, or by raising. */
  datatype ToolReply = Returned(path: string) | Raised

  /** The value returned after a successful tool call: the tool's own non-empty string, else the relative path. */
  function ReplyText(outcome: CallOutcome, relativePath: string): (text: string)
    requires !outcome.CallFailed?
    ensures relativePath != "" ==> text != ""
    ensures outcome.ReturnedText? && outcome.text != "" ==> text == outcome.text
    ensures !(outcome.ReturnedText? && outcome.text != "") ==> text == relativePath
  {
    if outcome.ReturnedText? && outcome.text != "" then outcome.text else relativePath
  }

  /**
   * Saves the conversation. With a `write_file` tool the document goes
   * through it, and a failed call falls through to a direct write of the
   * same path; the direct write raises on failure. A `None` output directory
   * or history raises before anything is written.
   */
  method SaveConversationToolFn(
    args: Args, fileStamp: string, dateStamp: string, tools: seq<Tool>,
    invoke: (Tool, string, string) -> CallOutcome, directWrite: (string, string) -> bool)
    returns (reply: ToolReply)
    ensures args.outputDir.Null? || args.conversationHistory.Null? ==> reply == Raised
    ensures !args.outputDir.Null? && !args.conversationHistory.Null? ==>
              var path := ToolPath(args, fileStamp);
              var doc := ToolDocument(args, dateStamp);
              var tool := FirstWriteFileTool(tools);
              reply == if tool.Some? && !invoke(tool.value, path, doc).CallFailed?
                       then Returned(ReplyText(invoke(tool.value, path, doc), path))
                       else if directWrite(path, doc) then Returned(path)
                       else Raised
    ensures reply.Returned? ==> reply.path != ""
  {
    if args.outputDir.Null? {
      return Raised;
    }
    var outputDir := NormalizedOutputDir(args.outputDir);
    if args.conversationHistory.Null? {
      return Raised;
    }
    var markdownContent := FormatConversationAsMarkdown(
      MarkdownText(args.message), MarkdownText(args.successCriteria),
      HistoryOf(args.conversationHistory), dateStamp);
    var slug := ToolSlug(SlugSource(args.message));
    var filename := MarkdownFileName(fileStamp, slug);
    var writeTool := FindWriteFileTool(tools);
    if writeTool.Some? {
      var relativePath := PathJoin(outputDir, filename);
      var result := invoke(writeTool.value, relativePath, markdownContent);
      if !result.CallFailed? {
        return Returned(ReplyText(result, relativePath));
      }
    }
    var filePath := PathJoin(outputDir, filename);
    if directWrite(filePath, markdownContent) {
      reply := Returned(filePath);
    } else {
      reply := Raised;
    }
  }
}
