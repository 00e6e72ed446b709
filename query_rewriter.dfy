/** The two-stage query rewriter (`QueryProcessor`): a follow-up question is
    first made standalone using the last turn of the conversation
    ("contextualise"), then split into independent sub-questions
    ("decompose"). Each stage asks the chat-completion service once and falls
    back to its own input when that call fails. */
module QueryRewriter {
  import opened Wrappers
  import opened PyText
  import opened Chats

  const ContextualizerPrompt: string :=
    "You are a query contextualizer. Rephrase the query to be standalone and complete using conversation history.\n\n"
    + "Rules:\n- If query is vague, add context from history\n- If query is already complete, return unchanged\n"
    + "- Return ONLY the rephrased query\n\nExamples:\nHistory: User asks about leave policy\n"
    + "Query: \"How many sick days?\"\nOutput: How many sick days does Acme Corp provide?"

  const DecomposerPrompt: string :=
    "Split query into multiple questions if needed. Return numbered list.\n\nExamples:\n"
    + "Input: \"What is leave policy?\"\nOutput:\n1. What is leave policy?\n\n"
    + "Input: \"What is leave policy and dress code?\"\nOutput:\n1. What is our leave policy?\n2. What is our dress code?"

  /** Queries with more words than this are taken to be standalone already. */
  const MaxWordsToContextualize: nat := 10

  /** How many of the latest history messages the contextualiser is shown. */
  const ContextMessages: nat := 2

  /** The messages the contextualise stage sends, or `None` when it skips the
      service: with no history, or with a query of more than ten words. */
  function ContextualizeRequest(query: string, history: seq<Message>): (request: Option<seq<Message>>)
    ensures request.None? <==> history == [] || |Words(query)| > MaxWordsToContextualize
    ensures request.Some? ==>
      var msgs, k := request.value, if |history| < 2 then |history| else 2;
      && |msgs| == k + 2
      && msgs[0] == Message(System, ContextualizerPrompt)
      && msgs[1..k + 1] == history[|history| - k..]
      && msgs[k + 1] == Message(User, query)
  {
    if history == [] || |Words(query)| > MaxWordsToContextualize then None
    else Some([Message(System, ContextualizerPrompt)] + LastN(history, ContextMessages) + [Message(User, query)])
  }

  /** `_contextualize_query`: the stripped rewrite, or the query itself when
      the stage is skipped or the service fails. */
  function Contextualized(query: string, history: seq<Message>, chat: ChatService): (standalone: string)
    ensures ContextualizeRequest(query, history).None? ==> standalone == query
    ensures ContextualizeRequest(query, history).Some? ==>
      var reply := chat(ContextualizeRequest(query, history).value);
      standalone == if reply.Replied? then Strip(reply.text) else query
  {
    match ContextualizeRequest(query, history)
    case None => query
    case Some(msgs) =>
      match chat(msgs)
      case Replied(text) => Strip(text)
      case Failed => query
  }

  /** With no history, or a query longer than ten words, the query comes back
      unchanged whatever the service would have said: the service is not consulted. */
  lemma ContextualizeSkips(query: string, history: seq<Message>, chat: ChatService, other: ChatService)
    requires history == [] || |Words(query)| > MaxWordsToContextualize
    ensures Contextualized(query, history, chat) == query
    ensures Contextualized(query, history, chat) == Contextualized(query, history, other)
  {
  }

  /** Otherwise the outcome is the service's reply to exactly the request above,
      stripped, or the query unchanged when the call fails. */
  lemma ContextualizeAsks(query: string, history: seq<Message>, chat: ChatService)
    requires history != [] && |Words(query)| <= MaxWordsToContextualize
    ensures ContextualizeRequest(query, history).Some?
    ensures var reply := chat(ContextualizeRequest(query, history).value);
      && (reply.Failed? ==> Contextualized(query, history, chat) == query)
      && (reply.Replied? ==> Contextualized(query, history, chat) == Strip(reply.text))
  {
  }

  /** The two messages the decompose stage sends. */
  function DecomposeRequest(query: string): seq<Message>
  {
    [Message(System, DecomposerPrompt), Message(User, query)]
  }

  /** A reply line counts when, stripped, it starts with a digit or `-`; it then
      contributes the stripped text after its first `.` (all of it when it has
      none), unless that is empty. */
  function LineQuery(line: string): Option<string>
  {
    var l := Strip(line);
    if l != [] && (IsDigit(l[0]) || l[0] == '-') then
      var item := Strip(AfterFirst(l, '.'));
      if item != [] then Some(item) else None
    else None
  }

  /** What a line yields is never empty and has no blank at either end. */
  lemma LineQueryStripped(line: string)
    requires LineQuery(line).Some?
    ensures LineQuery(line).value != [] && Strip(LineQuery(line).value) == LineQuery(line).value
  {
    StripIdempotent(AfterFirst(Strip(line), '.'));
  }

  /** The sub-queries read off a sequence of reply lines, in line order. */
  function ParsedQueries(lines: seq<string>): seq<string>
  {
    FilterMap(lines, LineQuery)
  }

  /** `_decompose_query` given the service's reply: the parsed list, or the
      whole stripped reply when no line qualifies, or `[query]` on failure. */
  function Decomposition(query: string, reply: Reply): (queries: seq<string>)
    ensures queries != []
  {
    match reply
    case Failed => [query]
    case Replied(text) =>
      var parsed := ParsedQueries(Split(Strip(text), '\n'));
      if parsed == [] then [Strip(text)] else parsed
  }

  /** Parsing is line by line: the parse of two blocks of lines is the parse of
      the first followed by the parse of the second, so reply order is kept. */
  lemma ParsedQueriesAppend(a: seq<string>, b: seq<string>)
    ensures ParsedQueries(a + b) == ParsedQueries(a) + ParsedQueries(b)
  {
    FilterMapAppend(a, b, LineQuery);
  }

  /** Every parsed sub-query is what some line yields... */
  lemma ParsedQueryOrigin(lines: seq<string>, q: string)
    requires q in ParsedQueries(lines)
    ensures exists j :: 0 <= j < |lines| && LineQuery(lines[j]) == Some(q)
  {
    FilterMapOrigin(lines, LineQuery, q);
  }

  /** ...and whatever a line yields is among the parsed sub-queries. */
  lemma ParsedQueryKept(lines: seq<string>, j: nat, q: string)
    requires j < |lines| && LineQuery(lines[j]) == Some(q)
    ensures q in ParsedQueries(lines)
  {
    FilterMapKept(lines, LineQuery, j, q);
  }

  /** Each line yields at most one sub-query, and none is empty or padded. */
  lemma {:induction false} ParsedQueriesShape(lines: seq<string>)
    ensures |ParsedQueries(lines)| <= |lines|
    ensures forall k :: 0 <= k < |ParsedQueries(lines)| ==>
      ParsedQueries(lines)[k] != [] && Strip(ParsedQueries(lines)[k]) == ParsedQueries(lines)[k]
  {
    FilterMapLength(lines, LineQuery);
    forall k | 0 <= k < |ParsedQueries(lines)|
      ensures ParsedQueries(lines)[k] != [] && Strip(ParsedQueries(lines)[k]) == ParsedQueries(lines)[k]
    {
      var q := ParsedQueries(lines)[k];
      FilterMapOrigin(lines, LineQuery, q);
      var j :| 0 <= j < |lines| && LineQuery(lines[j]) == Some(q);
      LineQueryStripped(lines[j]);
    }
  }

  /** `_decompose_query`: one service call, then a scan of the reply's lines. */
  method Decompose(query: string, chat: ChatService) returns (queries: seq<string>)
    ensures queries == Decomposition(query, chat(DecomposeRequest(query)))
    ensures queries != []
  {
    var reply := chat(DecomposeRequest(query));
    if reply.Failed? {
      return [query];
    }
    var response := reply.text;
    queries := [];
    var lines := Split(Strip(response), '\n');
    for i := 0 to |lines|
      invariant queries == ParsedQueries(lines[..i])
    {
      ParsedQueriesNext(lines, i);
      var line := Strip(lines[i]);
      if line != [] && (IsDigit(line[0]) || line[0] == '-') {
        var item := Strip(AfterFirst(line, '.'));
        if item != [] {
          queries := queries + [item];
        }
      }
    }
    assert lines[..|lines|] == lines;
    if queries == [] {
      queries := [Strip(response)];
    }
  }

  lemma ParsedQueriesNext(lines: seq<string>, i: nat)
    requires i < |lines|
    ensures ParsedQueries(lines[..i + 1]) == ParsedQueries(lines[..i]) + OptionToSeq(LineQuery(lines[i]))
  {
    assert lines[..i + 1][..i] == lines[..i];
  }

  /** What `process_query` returns, as a function of its inputs. */
  function SubQueries(query: string, history: seq<Message>, chat: ChatService): seq<string>
  {
    var standalone := Contextualized(query, history, chat);
    Decomposition(standalone, chat(DecomposeRequest(standalone)))
  }

  /** `process_query`: decompose the contextualised query; never empty. */
  method ProcessQuery(query: string, history: seq<Message>, chat: ChatService) returns (subQueries: seq<string>)
    ensures subQueries == SubQueries(query, history, chat)
    ensures subQueries != []
  {
    var standalone := Contextualized(query, history, chat);
    subQueries := Decompose(standalone, chat);
  }

  /** When every call to the service fails, the rewriter degrades to the
      user's literal text as the only sub-query. */
  lemma TotalFailureKeepsLiteralQuery(query: string, history: seq<Message>, chat: ChatService)
    requires forall msgs :: chat(msgs) == Failed
    ensures SubQueries(query, history, chat) == [query]
  {
  }

  /** A reply made of two numbered lines `d1. q1` and `d2. q2` decomposes into
      exactly the two questions, in reply order. */
  lemma TwoNumberedLines(query: string, d1: char, q1: string, d2: char, q2: string)
    requires IsDigit(d1) && IsDigit(d2)
    requires Plain(q1) && Plain(q2)
    ensures var l1, l2 := [d1, '.', ' '] + q1, [d2, '.', ' '] + q2;
      Decomposition(query, Replied(l1 + "\n" + l2)) == [q1, q2]
  {
    var l1, l2 := [d1, '.', ' '] + q1, [d2, '.', ' '] + q2;
    assert l1 != [] && !IsSpace(l1[0]) && '\n' !in l1 by {
      assert l1[0] == d1;
    }
    assert l2 != [] && !IsSpace(l2[|l2| - 1]) && '\n' !in l2 by {
      assert l2[|l2| - 1] == q2[|q2| - 1];
    }
    assert LineQuery(l1) == Some(q1) by {
      NumberedLine(d1, q1);
    }
    assert LineQuery(l2) == Some(q2) by {
      NumberedLine(d2, q2);
    }
    TwoQueryLines(query, l1, q1, l2, q2);
  }

  /** A reply of two lines that each yield a sub-query decomposes into those two. */
  lemma TwoQueryLines(query: string, l1: string, q1: string, l2: string, q2: string)
    requires l1 != [] && !IsSpace(l1[0]) && '\n' !in l1
    requires l2 != [] && !IsSpace(l2[|l2| - 1]) && '\n' !in l2
    requires LineQuery(l1) == Some(q1) && LineQuery(l2) == Some(q2)
    ensures Decomposition(query, Replied(l1 + "\n" + l2)) == [q1, q2]
  {
    TwoLines(l1, l2);
    FilterMapTwo(l1, l2, LineQuery);
  }

  /** A question as the model writes one: not blank at either end and with no
      line break inside; it may contain dots, since only the first dot of a
      line is cut. */
  predicate Plain(q: string)
  {
    q != [] && !IsSpace(q[0]) && !IsSpace(q[|q| - 1]) && '\n' !in q
  }

  /** A line `d. text` with a single digit and a plain `text` yields `text`. */
  lemma NumberedLine(d: char, text: string)
    requires IsDigit(d) && Plain(text)
    ensures LineQuery([d, '.', ' '] + text) == Some(text)
  {
    TrimmedIsStripped([d, '.', ' '] + text);
    AfterNumber(d, text);
    BlankThenPlain(text);
  }

  lemma AfterNumber(d: char, text: string)
    requires IsDigit(d)
    ensures AfterFirst([d, '.', ' '] + text, '.') == [' '] + text
  {
    var l := [d, '.', ' '] + text;
    assert l[0] != '.' && l[1..][0] == '.';
    assert AfterFirst(l, '.') == TailAfter(l[1..], '.') == l[1..][1..];
    assert l[1..][1..] == [' '] + text;
  }

  lemma BlankThenPlain(text: string)
    requires Plain(text)
    ensures Strip([' '] + text) == text
  {
    assert StripLeft([' '] + text) == text by {
      assert ([' '] + text)[1..] == text;
    }
    TrimmedIsStripped(text);
  }

  lemma TrimmedIsStripped(s: string)
    requires s != [] && !IsSpace(s[0]) && !IsSpace(s[|s| - 1])
    ensures Strip(s) == s
  {
  }

  /** Two lines without line breaks, the whole not blank at either end, split back apart. */
  lemma TwoLines(l1: string, l2: string)
    requires l1 != [] && !IsSpace(l1[0]) && '\n' !in l1
    requires l2 != [] && !IsSpace(l2[|l2| - 1]) && '\n' !in l2
    ensures Split(Strip(l1 + "\n" + l2), '\n') == [l1, l2]
  {
    var reply := l1 + "\n" + l2;
    assert reply[0] == l1[0] && reply[|reply| - 1] == l2[|l2| - 1];
    TrimmedIsStripped(reply);
    SplitPrefix(l1, l2, '\n');
    SplitNoSeparator(l2, '\n');
    assert reply == l1 + ['\n'] + l2;
  }

}
