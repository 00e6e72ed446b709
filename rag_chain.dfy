/** Prompt assembly for the answering call (`RAGChatbot`): the fixed system
    prompt, the rendering of retrieved passages as numbered sources, and the
    message list sent to the chat-completion service. */
module PromptAssembly {
  import opened Wrappers
  import opened PyText
  import opened Chats

  const SystemPrompt: string :=
    "You are an AI assistant for Acme Corp's HR policies. Your role is to help employees understand company policies by answering questions based on the provided context.\n\n"
    + "Guidelines:\n"
    + "- Answer based ONLY on the provided context. You may refer to previous messages for clarity in case the user query is not clear.\n"
    + "- If information is not in the context, say \"I don't have that information in the HR policy documents\"\n"
    + "- Be concise and professional\n"
    + "- Use bullet points for lists\n"
    + "- Cite specific policy sections when relevant\n"
    + "- Reword the context properly so it looks more professional and less like copy-pasting\n\n"
    + "Remember: You are helpful, accurate, and only provide information from official HR documents."

  /** How many of the latest history messages a prompt carries at most. */
  const HistoryWindow: nat := 6

  const QuestionPrefix: string := "Context from HR documents:\n"
  const QuestionInfix: string := "\n\nQuestion: "

  /** The content of the closing user message: the context, then the question. */
  function QuestionContent(query: string, context: string): string
  {
    QuestionPrefix + context + QuestionInfix + query
  }

  /** The user message carries the context and ends with the query itself. */
  lemma QuestionContentShape(query: string, context: string)
    ensures var content := QuestionContent(query, context);
      && |content| == |QuestionPrefix| + |context| + |QuestionInfix| + |query|
      && content[..|QuestionPrefix|] == QuestionPrefix
      && content[|QuestionPrefix|..|QuestionPrefix| + |context|] == context
      && content[|content| - |query|..] == query
  {
    var content := QuestionContent(query, context);
    assert content == QuestionPrefix + context + (QuestionInfix + query);
    assert content[|QuestionPrefix|..][..|context|] == context;
  }

  /** The prompt, described by what it holds rather than how it is built: the
      last (at most six) history messages, preceded by the system message only
      when that window has at most one message, and followed by the question. */
  function Prompt(query: string, context: string, history: seq<Message>): seq<Message>
  {
    var window := LastN(history, HistoryWindow);
    var question := Message(User, QuestionContent(query, context));
    if |window| <= 1 then [Message(System, SystemPrompt)] + window + [question]
    else window + [question]
  }

  /** `_build_prompt`: start from the system message, extend with the history
      window, drop index 0 once there are more than two messages, append the
      question. */
  method BuildPrompt(query: string, context: string, history: seq<Message>) returns (messages: seq<Message>)
    ensures messages == Prompt(query, context, history)
  {
    messages := [Message(System, SystemPrompt)];
    if history != [] {
      messages := messages + LastN(history, HistoryWindow);
    }
    if |messages| > 2 {
      messages := messages[1..];
    }
    messages := messages + [Message(User, QuestionContent(query, context))];
  }

  /** Length rule: with k = min(6, |history|) the prompt has k + 2 messages when
      k <= 1 and k + 1 otherwise, so never more than seven. */
  lemma PromptLength(query: string, context: string, history: seq<Message>)
    ensures var k := if |history| < HistoryWindow then |history| else HistoryWindow;
      |Prompt(query, context, history)| == (if k <= 1 then k + 2 else k + 1)
    ensures 2 <= |Prompt(query, context, history)| <= 7
  {
  }

  /** The prompt ends with exactly one question message, and what precedes it is
      the history window, in order and unchanged, behind the system message when
      that is kept. */
  lemma PromptContents(query: string, context: string, history: seq<Message>)
    ensures var p, k := Prompt(query, context, history), if |history| < HistoryWindow then |history| else HistoryWindow;
      && p[|p| - 1] == Message(User, QuestionContent(query, context))
      && p[..|p| - 1] == (if k <= 1 then [Message(System, SystemPrompt)] else []) + history[|history| - k..]
  {
    var p := Prompt(query, context, history);
    assert p[..|p| - 1] == (if |LastN(history, HistoryWindow)| <= 1 then [Message(System, SystemPrompt)] else []) + LastN(history, HistoryWindow);
  }

  /** The prompt opens with the system prompt exactly when the window has at
      most one message, or when the window itself starts with a stored copy of it. */
  lemma SystemPromptKept(query: string, context: string, history: seq<Message>)
    ensures var p, k := Prompt(query, context, history), if |history| < HistoryWindow then |history| else HistoryWindow;
      p[0] == Message(System, SystemPrompt) <==> k <= 1 || history[|history| - k] == Message(System, SystemPrompt)
  {
  }

  /** A retrieved passage with the title of the section it came from, when known. */
  datatype RetrievedDoc = RetrievedDoc(document: string, sectionTitle: Option<string>)

  function SectionLabel(doc: RetrievedDoc): string
  {
    if doc.sectionTitle.Some? then doc.sectionTitle.value else "Unknown"
  }

  /** The block for the passage numbered `i` (from 1). */
  function SourceBlock(i: nat, doc: RetrievedDoc): string
  {
    "[Source " + NatToString(i) + " - " + SectionLabel(doc) + "]\n" + doc.document
  }

  /** The blocks for all passages, numbered in input order. */
  function SourceBlocks(docs: seq<RetrievedDoc>): (blocks: seq<string>)
    ensures |blocks| == |docs|
  {
    if docs == [] then [] else SourceBlocks(docs[..|docs| - 1]) + [SourceBlock(|docs|, docs[|docs| - 1])]
  }

  /** The i-th block (from 0) renders the i-th passage under number i + 1. */
  lemma {:induction false} SourceBlocksNumbered(docs: seq<RetrievedDoc>)
    ensures forall i :: 0 <= i < |docs| ==> SourceBlocks(docs)[i] == SourceBlock(i + 1, docs[i])
  {
    if docs != [] {
      var init := docs[..|docs| - 1];
      SourceBlocksNumbered(init);
      assert forall i :: 0 <= i < |init| ==> init[i] == docs[i];
    }
  }

  /** `_format_context`: the blocks joined by blank lines, in input order. */
  method FormatContext(docs: seq<RetrievedDoc>) returns (context: string)
    ensures context == Join(SourceBlocks(docs), "\n\n")
    ensures docs == [] ==> context == ""
  {
    var parts: seq<string> := [];
    for i := 0 to |docs|
      invariant parts == SourceBlocks(docs[..i])
    {
      assert docs[..i + 1][..i] == docs[..i];
      parts := parts + [SourceBlock(i + 1, docs[i])];
    }
    assert docs[..|docs|] == docs;
    context := Join(parts, "\n\n");
  }
}
