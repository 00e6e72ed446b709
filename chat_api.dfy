/** One turn of the `POST /chats` handler: pick the session id, load the stored
    conversation, rewrite the question into sub-queries, gather evidence for
    each, assemble the prompt, ask the chat-completion service, and overwrite
    the conversation file with the prompt and the reply. */
module ChatApi {
  import opened Wrappers
  import opened Chats
  import QueryRewriter
  import PromptAssembly

  /** The conversation file: absent, present but not valid JSON, or one record. */
  datatype StoreFile = Missing | NotJson | Saved(record: Conversation)

  /** `load_conversation`: the stored record when it belongs to `sessionId`,
      otherwise a fresh empty conversation for that id. */
  function Loaded(file: StoreFile, sessionId: string): (c: Conversation)
    ensures c.sessionId == sessionId
  {
    if file.Saved? && file.record.sessionId == sessionId then file.record
    else Conversation(sessionId, [])
  }

  /** The conversation file holds at most one conversation and is overwritten
      on every save. */
  class ConversationStore {
    var file: StoreFile

    constructor(file: StoreFile)
      ensures this.file == file
    {
      this.file := file;
    }

    method Load(sessionId: string) returns (c: Conversation)
      ensures c == Loaded(file, sessionId)
    {
      if file.Saved? && file.record.sessionId == sessionId {
        c := file.record;
      } else {
        c := Conversation(sessionId, []);
      }
    }

    /** `save_conversation`: replace whatever the file held. */
    method Save(c: Conversation)
      modifies this
      ensures file == Saved(c)
    {
      file := Saved(c);
    }
  }

  /** What is saved is what a later load of the same session returns. */
  lemma SaveThenLoad(c: Conversation)
    ensures Loaded(Saved(c), c.sessionId) == c
  {
  }

  /** A load finds the stored record exactly when the file holds a record of
      that very session; any other file yields an empty conversation. */
  lemma LoadFindsOnlyItsSession(file: StoreFile, sessionId: string)
    ensures Loaded(file, sessionId).messages != [] ==> file.Saved? && file.record.sessionId == sessionId
    ensures file.Saved? && file.record.sessionId == sessionId ==> Loaded(file, sessionId) == file.record
  {
  }

  /** Single slot: saving one session's conversation forgets every other one. */
  lemma SaveForgetsOtherSessions(c: Conversation, other: string)
    requires other != c.sessionId
    ensures Loaded(Saved(c), other) == Conversation(other, [])
  {
  }

  /** The session id of a turn: the request's own when present and non-empty,
      otherwise the freshly generated one. */
  function SessionIdFor(request: ChatRequest, freshId: string): (sessionId: string)
    ensures request.sessionId.Some? && request.sessionId.value != [] ==> sessionId == request.sessionId.value
    ensures request.sessionId == None || request.sessionId == Some("") ==> sessionId == freshId
  {
    match request.sessionId
    case Some(id) => if id != [] then id else freshId
    case None => freshId
  }

  type Vector = seq<real>

  /** The embedding service: one vector per input text, or a failure. */
  datatype EmbedReply = Embedded(vectors: seq<Vector>) | EmbedFailed
  type Embedder = seq<string> -> EmbedReply

  /** The `documents` field of a vector-store answer: one list of passages per query vector. */
  type Documents = seq<seq<string>>

  datatype StoreReply = Found(documents: Documents) | StoreFailed

  /** A vector-store query: the query vector, an optional query text, and the
      number of results asked for. */
  type VectorStore = (Vector, Option<string>, nat) -> StoreReply

  /** The services a turn depends on; `render` is how the gathered evidence
      list is turned into the text placed in the prompt. */
  datatype Services = Services(chat: ChatService, embed: Embedder, store: VectorStore, render: seq<Documents> -> string)

  const SemanticResults: nat := 5
  const KeywordResults: nat := 1

  /** `create_embeddings`: an empty input list is refused before the service is called. */
  function CreateEmbeddings(embed: Embedder, texts: seq<string>): (reply: EmbedReply)
    ensures texts == [] ==> reply == EmbedFailed
    ensures texts != [] ==> reply == embed(texts)
  {
    if texts == [] then EmbedFailed else embed(texts)
  }

  /** The vector of one sub-query: the first vector the service returns. */
  function QueryEmbedding(embed: Embedder, query: string): Option<Vector>
  {
    var reply := CreateEmbeddings(embed, [query]);
    if reply.Embedded? && |reply.vectors| > 0 then Some(reply.vectors[0]) else None
  }

  /** The evidence for one sub-query: the semantic answer (five results), then
      the keyword answer (one result), or `None` when any call fails. */
  function Retrieval(s: Services, query: string): (r: Option<seq<Documents>>)
    ensures r.Some? ==> |r.value| == 2
  {
    match QueryEmbedding(s.embed, query)
    case None => None
    case Some(v) =>
      match s.store(v, None, SemanticResults)
      case StoreFailed => None
      case Found(semantic) =>
        match s.store(v, Some(query), KeywordResults)
        case StoreFailed => None
        case Found(keyword) => Some([semantic, keyword])
  }

  /** The evidence for all sub-queries, in sub-query order, or `None` as soon
      as one retrieval fails. */
  function Evidence(s: Services, queries: seq<string>): Option<seq<Documents>>
  {
    if queries == [] then Some([])
    else
      match Evidence(s, queries[..|queries| - 1])
      case None => None
      case Some(context) =>
        match Retrieval(s, queries[|queries| - 1])
        case None => None
        case Some(found) => Some(context + found)
  }

  /** Two entries per sub-query, semantic then keyword, in sub-query order and
      with nothing merged or dropped: a repeated sub-query repeats its entries. */
  lemma {:induction false} EvidenceShape(s: Services, queries: seq<string>)
    requires Evidence(s, queries).Some?
    ensures |Evidence(s, queries).value| == 2 * |queries|
    ensures forall i :: 0 <= i < |queries| ==>
      Retrieval(s, queries[i]).Some? &&
      Evidence(s, queries).value[2 * i..2 * i + 2] == Retrieval(s, queries[i]).value
  {
    if queries != [] {
      var n := |queries| - 1;
      var init := queries[..n];
      EvidenceShape(s, init);
      var context := Evidence(s, init).value;
      var found := Retrieval(s, queries[n]).value;
      assert Evidence(s, queries).value == context + found;
      forall i | 0 <= i < |queries|
        ensures Retrieval(s, queries[i]).Some?
        ensures Evidence(s, queries).value[2 * i..2 * i + 2] == Retrieval(s, queries[i]).value
      {
        if i < n {
          assert init[i] == queries[i];
          assert (context + found)[2 * i..2 * i + 2] == context[2 * i..2 * i + 2];
        } else {
          assert (context + found)[2 * i..2 * i + 2] == found;
        }
      }
    }
  }

  /** Gathering fails exactly when the retrieval for some sub-query fails. */
  lemma {:induction false} EvidenceFails(s: Services, queries: seq<string>)
    ensures Evidence(s, queries).None? <==> exists i :: 0 <= i < |queries| && Retrieval(s, queries[i]).None?
  {
    if queries != [] {
      var n := |queries| - 1;
      var init := queries[..n];
      EvidenceFails(s, init);
      if Evidence(s, init).None? {
        var i :| 0 <= i < n && Retrieval(s, init[i]).None?;
        assert queries[i] == init[i];
      } else if Retrieval(s, queries[n]).Some? {
        forall i | 0 <= i < |queries|
          ensures Retrieval(s, queries[i]).Some?
        {
          if i < n {
            assert queries[i] == init[i];
          }
        }
      }
    }
  }

  lemma EvidenceNext(s: Services, queries: seq<string>, i: nat)
    requires i < |queries|
    ensures Evidence(s, queries[..i + 1]) ==
      match Evidence(s, queries[..i])
      case None => None
      case Some(context) =>
        match Retrieval(s, queries[i])
        case None => None
        case Some(found) => Some(context + found)
  {
    assert queries[..i + 1][..i] == queries[..i];
  }

  /** Once a prefix of the sub-queries has failed, the whole gathering fails. */
  lemma {:induction false} EvidenceFailureSticks(s: Services, queries: seq<string>, i: nat)
    requires i <= |queries| && Evidence(s, queries[..i]).None?
    ensures Evidence(s, queries).None?
    decreases |queries| - i
  {
    if i < |queries| {
      EvidenceNext(s, queries, i);
      EvidenceFailureSticks(s, queries, i + 1);
    } else {
      assert queries[..i] == queries;
    }
  }

  /** The retrieval loop of the handler: for each sub-query, embed it, query
      the store semantically and by keyword, and append both answers. */
  method GatherEvidence(s: Services, queries: seq<string>) returns (context: Option<seq<Documents>>)
    ensures context == Evidence(s, queries)
  {
    var found: seq<Documents> := [];
    for i := 0 to |queries|
      invariant Evidence(s, queries[..i]) == Some(found)
    {
      EvidenceNext(s, queries, i);
      ghost var old_found := found;
      var embs := CreateEmbeddings(s.embed, [queries[i]]);
      if !embs.Embedded? || |embs.vectors| == 0 {
        EvidenceFailureSticks(s, queries, i + 1);
        return None;
      }
      var queryEmbedding := embs.vectors[0];
      var semantic := s.store(queryEmbedding, None, SemanticResults);
      if semantic.StoreFailed? {
        EvidenceFailureSticks(s, queries, i + 1);
        return None;
      }
      var keyword := s.store(queryEmbedding, Some(queries[i]), KeywordResults);
      if keyword.StoreFailed? {
        EvidenceFailureSticks(s, queries, i + 1);
        return None;
      }
      found := found + [semantic.documents];
      found := found + [keyword.documents];
      assert found == old_found + [semantic.documents, keyword.documents];
    }
    assert queries[..|queries|] == queries;
    return Some(found);
  }

  /** The HTTP outcome of a turn: the reply, or status 500. */
  datatype TurnOutcome = Answered(response: ChatResponse) | ServerError

  datatype TurnResult = TurnResult(outcome: TurnOutcome, file: StoreFile)

  /** One turn as a function of the conversation file, the request, the id a
      new session would get, and the services. */
  function Turn(file: StoreFile, request: ChatRequest, freshId: string, s: Services): TurnResult
  {
    var sessionId := SessionIdFor(request, freshId);
    var history := Loaded(file, sessionId).messages;
    var queries := QueryRewriter.SubQueries(request.userMessage, history, s.chat);
    match Evidence(s, queries)
    case None => TurnResult(ServerError, file)
    case Some(context) =>
      var prompt := PromptAssembly.Prompt(request.userMessage, s.render(context), history);
      match s.chat(prompt)
      case Failed => TurnResult(ServerError, file)
      case Replied(reply) =>
        TurnResult(Answered(ChatResponse(sessionId, reply)),
                   Saved(Conversation(sessionId, prompt + [Message(Assistant, reply)])))
  }

  /** `chat_endpoint`. */
  method ChatEndpoint(store: ConversationStore, request: ChatRequest, freshId: string, s: Services)
    returns (outcome: TurnOutcome)
    modifies store
    ensures TurnResult(outcome, store.file) == Turn(old(store.file), request, freshId, s)
  {
    var sessionId := SessionIdFor(request, freshId);
    var conversation := store.Load(sessionId);
    var history := conversation.messages;
    var queries := QueryRewriter.ProcessQuery(request.userMessage, history, s.chat);
    var context := GatherEvidence(s, queries);
    if context.None? {
      return ServerError;
    }
    var messages := PromptAssembly.BuildPrompt(request.userMessage, s.render(context.value), history);
    var botResponse := s.chat(messages);
    if botResponse.Failed? {
      return ServerError;
    }
    messages := messages + [Message(Assistant, botResponse.text)];
    store.Save(Conversation(sessionId, messages));
    return Answered(ChatResponse(sessionId, botResponse.text));
  }

  /** A failed turn (embedding, store or chat service) leaves the file as it was. */
  lemma FailedTurnSavesNothing(file: StoreFile, request: ChatRequest, freshId: string, s: Services)
    requires Turn(file, request, freshId, s).outcome.ServerError?
    ensures Turn(file, request, freshId, s).file == file
  {
  }

  /** A successful turn answers under the turn's session id, and the file then
      holds that session only: its messages are the prompt that was sent followed
      by one assistant message with the reply, which is what the next load of the
      session returns. */
  lemma AnsweredTurnSavesPromptAndReply(file: StoreFile, request: ChatRequest, freshId: string, s: Services)
    requires Turn(file, request, freshId, s).outcome.Answered?
    ensures var r, sessionId := Turn(file, request, freshId, s), SessionIdFor(request, freshId);
      var history := Loaded(file, sessionId).messages;
      && r.outcome.response.sessionId == sessionId
      && r.file.Saved?
      && Loaded(r.file, sessionId).messages[..|r.file.record.messages| - 1]
           == PromptAssembly.Prompt(request.userMessage, s.render(Evidence(s, QueryRewriter.SubQueries(request.userMessage, history, s.chat)).value), history)
      && Loaded(r.file, sessionId).messages[|r.file.record.messages| - 1] == Message(Assistant, r.outcome.response.botMessage)
  {
    var r, sessionId := Turn(file, request, freshId, s), SessionIdFor(request, freshId);
    SaveThenLoad(r.file.record);
  }

  /** The roles of a message list. */
  function Roles(msgs: seq<Message>): (roles: seq<Role>)
    ensures |roles| == |msgs|
  {
    seq(|msgs|, i requires 0 <= i < |msgs| => msgs[i].role)
  }

  /** How one successful turn changes the roles of the stored conversation. */
  function RoleStep(roles: seq<Role>): seq<Role>
  {
    var window := LastN(roles, PromptAssembly.HistoryWindow);
    (if |window| <= 1 then [System] + window else window) + [User, Assistant]
  }

  /** The roles of a window of messages are the window of their roles. */
  lemma RolesOfLastN(msgs: seq<Message>, n: nat)
    requires n > 0
    ensures Roles(LastN(msgs, n)) == LastN(Roles(msgs), n)
  {
  }

  /** The roles of a saved prompt-and-reply follow from the roles of the history. */
  lemma PromptAndReplyRoles(query: string, context: string, history: seq<Message>, reply: string)
    ensures Roles(PromptAssembly.Prompt(query, context, history) + [Message(Assistant, reply)]) == RoleStep(Roles(history))
  {
    var window := LastN(history, PromptAssembly.HistoryWindow);
    RolesOfLastN(history, PromptAssembly.HistoryWindow);
    var tail := [Message(User, PromptAssembly.QuestionContent(query, context)), Message(Assistant, reply)];
    var head := if |window| <= 1 then [Message(System, PromptAssembly.SystemPrompt)] + window else window;
    assert PromptAssembly.Prompt(query, context, history) + [Message(Assistant, reply)] == head + tail;
    RolesAppend(head, tail);
    if |window| <= 1 {
      RolesAppend([Message(System, PromptAssembly.SystemPrompt)], window);
    }
  }

  lemma RolesAppend(a: seq<Message>, b: seq<Message>)
    ensures Roles(a + b) == Roles(a) + Roles(b)
  {
  }

  /** The saved roles follow from the loaded roles alone. */
  lemma AnsweredTurnRoles(file: StoreFile, request: ChatRequest, freshId: string, s: Services)
    requires Turn(file, request, freshId, s).outcome.Answered?
    ensures var r, sessionId := Turn(file, request, freshId, s), SessionIdFor(request, freshId);
      r.file.Saved? && Roles(r.file.record.messages) == RoleStep(Roles(Loaded(file, sessionId).messages))
  {
    var sessionId := SessionIdFor(request, freshId);
    var history := Loaded(file, sessionId).messages;
    var context := Evidence(s, QueryRewriter.SubQueries(request.userMessage, history, s.chat)).value;
    var prompt := PromptAssembly.Prompt(request.userMessage, s.render(context), history);
    PromptAndReplyRoles(request.userMessage, s.render(context), history, s.chat(prompt).text);
  }

  /** The roles stored after `n` successful turns of one session started afresh. */
  function RolesAfter(n: nat): seq<Role>
  {
    if n == 0 then [] else RoleStep(RolesAfter(n - 1))
  }

  /** `n` user/assistant pairs. */
  function Exchanges(n: nat): seq<Role>
  {
    if n == 0 then [] else Exchanges(n - 1) + [User, Assistant]
  }

  lemma {:induction false} ExchangesShape(n: nat)
    ensures |Exchanges(n)| == 2 * n
    ensures System !in Exchanges(n)
  {
    if n > 0 {
      ExchangesShape(n - 1);
    }
  }

  /** The last `k` pairs of `n` pairs are `k` pairs. */
  lemma {:induction false} ExchangesSuffix(n: nat, k: nat)
    requires k <= n
    ensures |Exchanges(n)| == 2 * n && Exchanges(n)[2 * (n - k)..] == Exchanges(k)
  {
    ExchangesShape(n);
    if k > 0 {
      ExchangesSuffix(n - 1, k - 1);
      assert Exchanges(n)[2 * (n - k)..] == Exchanges(n - 1)[2 * (n - k)..] + [User, Assistant];
    } else {
      assert Exchanges(n)[2 * n..] == [];
    }
  }

  /** While the stored conversation is short it keeps its system message and gains a pair. */
  lemma RoleStepGrows(k: nat)
    requires 1 <= k <= 2
    ensures RoleStep([System] + Exchanges(k)) == [System] + Exchanges(k + 1)
  {
    ExchangesShape(k);
    var roles := [System] + Exchanges(k);
    assert LastN(roles, PromptAssembly.HistoryWindow) == roles;
  }

  /** At seven messages the window of six drops the system message. */
  lemma RoleStepDropsSystem()
    ensures RoleStep([System] + Exchanges(3)) == Exchanges(4)
  {
    ExchangesShape(3);
    var roles := [System] + Exchanges(3);
    assert LastN(roles, PromptAssembly.HistoryWindow) == roles[1..] == Exchanges(3);
  }

  /** At eight messages the conversation stays the same shape. */
  lemma RoleStepSteady()
    ensures RoleStep(Exchanges(4)) == Exchanges(4)
  {
    ExchangesSuffix(4, 3);
    assert LastN(Exchanges(4), PromptAssembly.HistoryWindow) == Exchanges(4)[2..] == Exchanges(3);
  }

  /** After the first turn the stored conversation is the system message and
      one exchange; each of the next two turns adds an exchange; from the fourth
      turn on it is four exchanges and nothing else. */
  lemma {:induction false} RolesAfterTurns(n: nat)
    requires n >= 1
    ensures RolesAfter(n) == if n <= 3 then [System] + Exchanges(n) else Exchanges(4)
  {
    if n == 1 {
      assert RolesAfter(1) == RoleStep([]);
      assert RoleStep([]) == [System, User, Assistant];
      assert Exchanges(1) == Exchanges(0) + [User, Assistant];
    } else {
      RolesAfterTurns(n - 1);
      if n <= 3 {
        RoleStepGrows(n - 1);
      } else if n == 4 {
        RoleStepDropsSystem();
      } else {
        RoleStepSteady();
      }
    }
  }

  /** The stored conversation holds min(2n + 1, 8) messages after turn n, and
      from the fourth turn on no system message at all. */
  lemma StoredLengthAfterTurns(n: nat)
    requires n >= 1
    ensures |RolesAfter(n)| == if 2 * n + 1 < 8 then 2 * n + 1 else 8
    ensures n >= 4 ==> System !in RolesAfter(n)
  {
    RolesAfterTurns(n);
    ExchangesShape(if n <= 3 then n else 4);
  }


  /** The conversation file after one session's questions are asked in turn,
      each request naming the session `id`. */
  function Replay(file: StoreFile, id: string, questions: seq<string>, s: Services): StoreFile
  {
    if questions == [] then file
    else Turn(Replay(file, id, questions[..|questions| - 1], s), ChatRequest(Some(id), questions[|questions| - 1]), id, s).file
  }

  /** Every one of those turns is answered. */
  predicate AllAnswered(file: StoreFile, id: string, questions: seq<string>, s: Services)
  {
    questions == [] ||
      (AllAnswered(file, id, questions[..|questions| - 1], s)
       && Turn(Replay(file, id, questions[..|questions| - 1], s), ChatRequest(Some(id), questions[|questions| - 1]), id, s).outcome.Answered?)
  }

  /** A session that starts empty and gets `n` answered turns stores exactly
      the roles `RolesAfter(n)`: the turn-by-turn role step is what the handler
      does to the file. */
  lemma {:induction false} ReplayRoles(file: StoreFile, id: string, questions: seq<string>, s: Services)
    requires Loaded(file, id).messages == []
    requires AllAnswered(file, id, questions, s)
    ensures Roles(Loaded(Replay(file, id, questions, s), id).messages) == RolesAfter(|questions|)
  {
    if questions != [] {
      var init := questions[..|questions| - 1];
      var before := Replay(file, id, init, s);
      var request := ChatRequest(Some(id), questions[|questions| - 1]);
      ReplayRoles(file, id, init, s);
      AnsweredTurnRoles(before, request, id, s);
      assert SessionIdFor(request, id) == id;
      var after := Turn(before, request, id, s).file;
      assert after == Replay(file, id, questions, s);
      LoadFindsOnlyItsSession(after, id);
    }
  }

  /** After `n` answered turns of a session that started empty, the file holds
      min(2n + 1, 8) messages of that session, and from the fourth turn on none
      of them is a system message. */
  lemma SessionLengthAfterTurns(file: StoreFile, id: string, questions: seq<string>, s: Services)
    requires Loaded(file, id).messages == []
    requires AllAnswered(file, id, questions, s)
    requires |questions| >= 1
    ensures var msgs := Loaded(Replay(file, id, questions, s), id).messages;
      && |msgs| == (if 2 * |questions| + 1 < 8 then 2 * |questions| + 1 else 8)
      && (|questions| >= 4 ==> forall i :: 0 <= i < |msgs| ==> msgs[i].role != System)
  {
    var msgs := Loaded(Replay(file, id, questions, s), id).messages;
    ReplayRoles(file, id, questions, s);
    StoredLengthAfterTurns(|questions|);
    assert forall i :: 0 <= i < |msgs| ==> Roles(msgs)[i] == msgs[i].role;
  }
}
