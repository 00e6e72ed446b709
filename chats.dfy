module Wrappers {
  datatype Option<+T> = None | Some(value: T)

  function OptionToSeq<T>(o: Option<T>): (s: seq<T>)
    ensures |s| <= 1
  {
    if o.Some? then [o.value] else []
  }

  /** The values `f` yields on the elements of `xs`, in order, skipping the `None`s. */
  function FilterMap<A, B>(xs: seq<A>, f: A -> Option<B>): seq<B>
  {
    if xs == [] then [] else FilterMap(xs[..|xs| - 1], f) + OptionToSeq(f(xs[|xs| - 1]))
  }

  lemma {:induction false} FilterMapAppend<A, B>(xs: seq<A>, ys: seq<A>, f: A -> Option<B>)
    ensures FilterMap(xs + ys, f) == FilterMap(xs, f) + FilterMap(ys, f)
  {
    if ys != [] {
      assert (xs + ys)[..|xs + ys| - 1] == xs + ys[..|ys| - 1];
      FilterMapAppend(xs, ys[..|ys| - 1], f);
    } else {
      assert xs + ys == xs;
    }
  }

  lemma FilterMapTwo<A, B>(x: A, y: A, f: A -> Option<B>)
    ensures FilterMap([x, y], f) == OptionToSeq(f(x)) + OptionToSeq(f(y))
  {
    assert [x, y][..1] == [x];
    var none: seq<A> := [];
    assert [x][..0] == none;
    assert FilterMap([x], f) == FilterMap(none, f) + OptionToSeq(f(x));
  }

  lemma {:induction false} FilterMapLength<A, B>(xs: seq<A>, f: A -> Option<B>)
    ensures |FilterMap(xs, f)| <= |xs|
  {
    if xs != [] {
      FilterMapLength(xs[..|xs| - 1], f);
    }
  }

  lemma {:induction false} FilterMapOrigin<A, B>(xs: seq<A>, f: A -> Option<B>, y: B)
    requires y in FilterMap(xs, f)
    ensures exists j :: 0 <= j < |xs| && f(xs[j]) == Some(y)
  {
    var n := |xs| - 1;
    if y in FilterMap(xs[..n], f) {
      FilterMapOrigin(xs[..n], f, y);
      var j :| 0 <= j < n && f(xs[..n][j]) == Some(y);
      assert xs[..n][j] == xs[j];
    }
  }

  lemma {:induction false} FilterMapKept<A, B>(xs: seq<A>, f: A -> Option<B>, j: nat, y: B)
    requires j < |xs| && f(xs[j]) == Some(y)
    ensures y in FilterMap(xs, f)
  {
    var n := |xs| - 1;
    if j < n {
      assert xs[..n][j] == xs[j];
      FilterMapKept(xs[..n], f, j, y);
    }
  }
}

/** The records exchanged by the chat service: chat messages, the stored
    conversation, the HTTP request and response bodies, and what a call to the
    chat-completion service can come back with. */
module Chats {
  import opened Wrappers

  datatype Role = System | User | Assistant

  datatype Message = Message(role: Role, content: string)

  /** The record kept in the conversation file. */
  datatype Conversation = Conversation(sessionId: string, messages: seq<Message>)

  /** Body of `POST /chats`; an absent session id is `None`. */
  datatype ChatRequest = ChatRequest(sessionId: Option<string>, userMessage: string)

  datatype ChatResponse = ChatResponse(sessionId: string, botMessage: string)

  /** The chat-completion service either answers with text or raises. */
  datatype Reply = Replied(text: string) | Failed

  /** The chat-completion service, seen as a function of the messages it is sent. */
  type ChatService = seq<Message> -> Reply

  /** Python's `s[-n:]` for a positive `n`: the last `n` elements, or all of
      them when there are fewer. */
  function LastN<T>(s: seq<T>, n: nat): (r: seq<T>)
    requires n > 0
    ensures |r| <= n && |r| <= |s| && (|r| == n || |r| == |s|)
    ensures forall i :: 0 <= i < |r| ==> r[i] == s[|s| - |r| + i]
  {
    if |s| <= n then s else s[|s| - n..]
  }
}
