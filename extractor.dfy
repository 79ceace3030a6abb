/**
  The extraction agent (bank2tax/core/extractor.py): it wraps one document's
  markdown in a fixed system message and a user message that names the source
  file, and hands both, with the document schema, to the inference client.
 */
module Extractor {
  import opened Wrappers
  import Schema

  /** One chat message, `{"role": ..., "content": ...}`. */
  datatype Message = Message(role: string, content: string)

  /** The inference client, reduced to its one call: send the messages and the
      schema, get back the model's text or an exception. */
  datatype OllamaClient = OllamaClient(invoke: (seq<Message>, Schema.Json) -> Result<string>)

  /** The system message. */
  const SystemPrompt: string :=
    "You extract structured data from bank statement text.\n" +
    "Statements may be written in German or French.\n" +
    "Account numbers are made of 3 parts separated by '.' or '-'\n" +
    "Keep the account number format EXACTLY AS IS\n" +
    "Return ONLY valid JSON that matches the provided JSON Schema.\n" +
    "No markdown fences, no commentary, no extra keys.\n" +
    "If a value is not present in the document, set it to null.\n"

  /** The fixed opening of the user message, ending in a blank line. */
  const UserHeader: string :=
    "Extract all accounts mentioned.\n" +
    "For each account, provide:\n" +
    "- account_number\n" +
    "- ending_balance\n" +
    "- currency\n" +
    "- institution\n\n"

  const SourceFileLabel: string := "source_file: "

  /** The blank line after the source file line and the heading of the document. */
  const DocumentLabel: string := "\n\nDocument (markdown):\n"

  /** The user message: the header, the line `source_file: <sourceFile>`, then
      the heading and the markdown verbatim at the very end. */
  function UserPrompt(markdown: string, sourceFile: string): (u: string)
    ensures |u| == |UserHeader| + |SourceFileLabel| + |sourceFile| + |DocumentLabel| + |markdown|
    ensures u[..|UserHeader|] == UserHeader
    ensures var line := SourceFileLabel + sourceFile;
      u[|UserHeader| - 1] == '\n' &&
      u[|UserHeader|..|UserHeader| + |line|] == line &&
      u[|UserHeader| + |line|] == '\n'
    ensures u[|u| - |markdown| - |DocumentLabel|..|u| - |markdown|] == DocumentLabel
    ensures u[|u| - |markdown|..] == markdown
  {
    UserHeader + SourceFileLabel + sourceFile + DocumentLabel + markdown
  }

  /** The two messages: the constant system message first, the user message second. */
  function ChatMessages(markdown: string, sourceFile: string): (ms: seq<Message>)
    ensures |ms| == 2
    ensures ms[0] == Message("system", SystemPrompt)
    ensures ms[1].role == "user" && ms[1].content == UserPrompt(markdown, sourceFile)
  {
    [Message("system", SystemPrompt), Message("user", UserPrompt(markdown, sourceFile))]
  }

  /** The extraction agent; its client is fixed when it is made. */
  datatype ExtractorAgent = ExtractorAgent(client: OllamaClient) {

    /** Asks the client once, with the document schema, and returns its answer
        (text or exception) unchanged. */
    function Extract(markdown: string, sourceFile: string): (r: Result<string>)
      ensures r == client.invoke(ChatMessages(markdown, sourceFile), Schema.DocumentSchema)
    {
      client.invoke(ChatMessages(markdown, sourceFile), Schema.DocumentSchema)
    }
  }

  /** The system message is the same whatever the document. */
  lemma SystemMessageIsConstant(markdown1: string, sourceFile1: string, markdown2: string, sourceFile2: string)
    ensures ChatMessages(markdown1, sourceFile1)[0] == ChatMessages(markdown2, sourceFile2)[0]
  {
  }

  /** When the source file name holds no line break, the user message determines
      both the source file name and the markdown. */
  lemma UserPromptDeterminesInputs(markdown1: string, sourceFile1: string, markdown2: string, sourceFile2: string)
    requires forall k :: 0 <= k < |sourceFile1| ==> sourceFile1[k] != '\n'
    requires forall k :: 0 <= k < |sourceFile2| ==> sourceFile2[k] != '\n'
    requires UserPrompt(markdown1, sourceFile1) == UserPrompt(markdown2, sourceFile2)
    ensures sourceFile1 == sourceFile2 && markdown1 == markdown2
  {
    SourceFileLine(markdown1, sourceFile1);
    SourceFileLine(markdown2, sourceFile2);
    if |sourceFile1| < |sourceFile2| {
      assert false;
    } else if |sourceFile2| < |sourceFile1| {
      assert false;
    }
    assert forall k :: 0 <= k < |sourceFile1| ==> sourceFile1[k] == sourceFile2[k];
  }

  /** In the user message, the source file name is read character by character
      after the label, up to the line break that ends it. */
  lemma SourceFileLine(markdown: string, sourceFile: string)
    ensures var u := UserPrompt(markdown, sourceFile);
      var start := |UserHeader| + |SourceFileLabel|;
      (forall k :: 0 <= k < |sourceFile| ==> u[start + k] == sourceFile[k]) &&
      u[start + |sourceFile|] == '\n'
  {
    var u := UserPrompt(markdown, sourceFile);
    var line := SourceFileLabel + sourceFile;
    assert u[|UserHeader|..|UserHeader| + |line|] == line;
    forall k | 0 <= k < |sourceFile|
      ensures u[|UserHeader| + |SourceFileLabel| + k] == sourceFile[k]
    {
      assert line[|SourceFileLabel| + k] == sourceFile[k];
    }
  }

  /** Without that condition the user message is ambiguous: a source file name
      that itself holds the document heading can pass for part of the markdown. */
  lemma UserPromptAmbiguous()
    ensures UserPrompt("b" + DocumentLabel + "c", "a") == UserPrompt("c", "a" + DocumentLabel + "b")
  {
  }
}
