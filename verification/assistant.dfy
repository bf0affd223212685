/**
 * The answering bot: prompt assembly from persona, retrieved context,
 * session history and the new question; the history update after a reply;
 * and the vector-index handle it rebuilds when the knowledge folder changes.
 */
module Assistant {
  import opened Wrappers
  import opened SessionMemory
  import opened Ingestion

  /** TOP_K: how many records a retrieval returns at most. */
  const TopK: nat := 3

  /** The model identifier every request names. */
  const ModelName: string := "deepseek-chat"

  /** Separator between retrieved texts in the context. */
  const Separator: string := "\n\n"

  /** The context used when retrieval finds nothing. */
  const Placeholder: string := "（知识库暂无相关内容）"

  /** The instruction line: answer from the known material first, say so when unsure. */
  const Instruction: string := "你必须基于【已知资料】优先作答，无法确认时请明确说明。"

  /** The heading that introduces the retrieved context. */
  const ContextHeading: string := "【已知资料】:"

  /** The reply returned whenever any step of answering raises. */
  const Fallback: string := "抱歉，我暂时无法回答这个问题。请稍后再试。"

  /** What the generation call produced: the answer text, or an exception. */
  datatype GenResult = Generated(answer: string) | GenFailed

  /** The retriever: the index it searches and how many records it returns. */
  datatype Retriever = Retriever(store: Store, k: nat)

  /** Similarity search over an index for a query, at most `k` records; None when it raised. */
  type Search = (Store, nat, string) -> Option<seq<Document>>

  /** The chat-completion call: a model name and the ordered messages. */
  type Generate = (string, seq<Message>) -> GenResult

  /** `sep.join(parts)`. */
  function Join(sep: string, parts: seq<string>): string {
    if parts == [] then ""
    else if |parts| == 1 then parts[0]
    else Join(sep, parts[..|parts| - 1]) + sep + parts[|parts| - 1]
  }

  /** Where part `i` starts in `Join(sep, parts)`. */
  function Offset(sep: string, parts: seq<string>, i: nat): nat
    requires i <= |parts|
  {
    if i == 0 then 0 else Offset(sep, parts, i - 1) + |parts[i - 1]| + |sep|
  }

  lemma {:induction false} OffsetOfPrefix(sep: string, parts: seq<string>, n: nat, i: nat)
    requires i <= n <= |parts|
    ensures Offset(sep, parts[..n], i) == Offset(sep, parts, i)
  {
    if i > 0 {
      OffsetOfPrefix(sep, parts, n, i - 1);
      assert parts[..n][i - 1] == parts[i - 1];
    }
  }

  /** The joined text ends where the last part ends. */
  lemma {:induction false} JoinLength(sep: string, parts: seq<string>)
    requires parts != []
    ensures |Join(sep, parts)| == Offset(sep, parts, |parts| - 1) + |parts[|parts| - 1]|
  {
    if |parts| > 1 {
      var pre := parts[..|parts| - 1];
      JoinLength(sep, pre);
      OffsetOfPrefix(sep, parts, |parts| - 1, |parts| - 2);
    }
  }

  /**
   * In the joined text, part `i` stands at its offset, and the separator
   * stands between it and part `i + 1`.
   */
  lemma SliceOfLeft<T>(a: seq<T>, b: seq<T>, x: nat, y: nat)
    requires x <= y <= |a|
    ensures (a + b)[x..y] == a[x..y]
  {
  }

  lemma SliceOfRight<T>(a: seq<T>, b: seq<T>, x: nat, y: nat)
    requires x <= y <= |b|
    ensures (a + b)[|a| + x..|a| + y] == b[x..y]
  {
  }

  /** The last part closes the joined text. */
  lemma JoinLastText(sep: string, parts: seq<string>)
    requires |parts| > 1
    ensures var n := |parts| - 1;
      && Offset(sep, parts, n) + |parts[n]| == |Join(sep, parts)|
      && Join(sep, parts)[Offset(sep, parts, n)..Offset(sep, parts, n) + |parts[n]|] == parts[n]
  {
    var n := |parts| - 1;
    var pre := parts[..n];
    var j := Join(sep, pre);
    assert Join(sep, parts) == (j + sep) + parts[n];
    JoinLength(sep, pre);
    OffsetOfPrefix(sep, parts, n, n - 1);
    assert Offset(sep, parts, n) == |j + sep|;
    SliceOfRight(j + sep, parts[n], 0, |parts[n]|);
    assert parts[n][0..|parts[n]|] == parts[n];
  }

  /** In the joined text, part `i` stands at its offset. */
  lemma {:induction false} JoinText(sep: string, parts: seq<string>, i: nat)
    requires i < |parts|
    ensures Offset(sep, parts, i) + |parts[i]| <= |Join(sep, parts)|
    ensures Join(sep, parts)[Offset(sep, parts, i)..Offset(sep, parts, i) + |parts[i]|] == parts[i]
  {
    if |parts| == 1 {
      assert parts[0][0..|parts[0]|] == parts[0];
    } else if i == |parts| - 1 {
      JoinLastText(sep, parts);
    } else {
      var n := |parts| - 1;
      var pre := parts[..n];
      var j := Join(sep, pre);
      assert Join(sep, parts) == (j + sep) + parts[n];
      JoinText(sep, pre, i);
      OffsetOfPrefix(sep, parts, n, i);
      assert pre[i] == parts[i];
      var o := Offset(sep, parts, i);
      var e := o + |parts[i]|;
      SliceOfLeft(j + sep, parts[n], o, e);
      SliceOfLeft(j, sep, o, e);
    }
  }

  /** The separator stands between the last two parts. */
  lemma JoinLastSeparator(sep: string, parts: seq<string>)
    requires |parts| > 1
    ensures var n := |parts| - 1;
      && Offset(sep, parts, n - 1) + |parts[n - 1]| + |sep| == Offset(sep, parts, n) <= |Join(sep, parts)|
      && Join(sep, parts)[Offset(sep, parts, n - 1) + |parts[n - 1]|..Offset(sep, parts, n)] == sep
  {
    var n := |parts| - 1;
    var pre := parts[..n];
    var j := Join(sep, pre);
    assert Join(sep, parts) == (j + sep) + parts[n];
    JoinLength(sep, pre);
    OffsetOfPrefix(sep, parts, n, n - 1);
    assert Offset(sep, parts, n - 1) + |parts[n - 1]| == |j|;
    SliceOfLeft(j + sep, parts[n], |j|, |j| + |sep|);
    SliceOfRight(j, sep, 0, |sep|);
    assert sep[0..|sep|] == sep;
  }

  /** In the joined text, the separator stands between part `i` and part `i + 1`. */
  lemma {:induction false} JoinSeparator(sep: string, parts: seq<string>, i: nat)
    requires i + 1 < |parts|
    ensures Offset(sep, parts, i) + |parts[i]| <= Offset(sep, parts, i + 1) <= |Join(sep, parts)|
    ensures Join(sep, parts)[Offset(sep, parts, i) + |parts[i]|..Offset(sep, parts, i + 1)] == sep
  {
    if i + 2 == |parts| {
      JoinLastSeparator(sep, parts);
    } else {
      var n := |parts| - 1;
      var pre := parts[..n];
      var j := Join(sep, pre);
      assert Join(sep, parts) == (j + sep) + parts[n];
      JoinSeparator(sep, pre, i);
      OffsetOfPrefix(sep, parts, n, i);
      OffsetOfPrefix(sep, parts, n, i + 1);
      assert pre[i] == parts[i];
      var e := Offset(sep, parts, i) + |parts[i]|;
      var f := Offset(sep, parts, i + 1);
      SliceOfLeft(j + sep, parts[n], e, f);
      SliceOfLeft(j, sep, e, f);
    }
  }

  /** The texts of the retrieved documents, in retrieval order. */
  function PageContents(docs: seq<Document>): (texts: seq<string>)
    ensures |texts| == |docs|
    ensures forall i :: 0 <= i < |docs| ==> texts[i] == docs[i].pageContent
  {
    if docs == [] then [] else PageContents(docs[..|docs| - 1]) + [docs[|docs| - 1].pageContent]
  }

  /** The context handed to the model: the retrieved texts joined by blank lines. */
  function Context(docs: seq<Document>): (c: string)
    ensures docs == [] ==> c == Placeholder
  {
    if docs == [] then Placeholder else Join(Separator, PageContents(docs))
  }

  /**
   * When something was retrieved, every retrieved text stands in the
   * context at its offset, in retrieval order, with the separator between
   * neighbours.
   */
  lemma ContextSpec(docs: seq<Document>, i: nat)
    requires i < |docs|
    ensures var texts := PageContents(docs);
      && Offset(Separator, texts, i) + |texts[i]| <= |Context(docs)|
      && (i + 1 < |docs| ==> Offset(Separator, texts, i + 1) <= |Context(docs)|)
      && Context(docs)[Offset(Separator, texts, i)..Offset(Separator, texts, i) + |texts[i]|] == docs[i].pageContent
      && (i + 1 < |docs| ==>
            Context(docs)[Offset(Separator, texts, i) + |texts[i]|..Offset(Separator, texts, i + 1)] == Separator)
  {
    JoinText(Separator, PageContents(docs), i);
    if i + 1 < |docs| {
      JoinSeparator(Separator, PageContents(docs), i);
    }
  }

  /** The system message: persona, instruction line, heading, then the context. */
  function SystemMessage(role: string, context: string): (m: string)
    ensures |m| == |role| + |Instruction| + |ContextHeading| + |context| + 3
    ensures m[..|role| + 1] == role + "\n"
    ensures m[|role| + 1..|role| + 2 + |Instruction|] == Instruction + "\n"
    ensures m[|role| + 2 + |Instruction|..|m| - |context|] == ContextHeading + "\n"
    ensures m[|m| - |context|..] == context
  {
    role + "\n" + Instruction + "\n" + ContextHeading + "\n" + context
  }

  /**
   * The request sent to the model: the system message first, then the
   * session history in order, then the new question.
   */
  function Messages(role: string, context: string, history: seq<Message>, query: string): (ms: seq<Message>)
    ensures |ms| == |history| + 2
    ensures ms[0] == Message(System, SystemMessage(role, context))
    ensures ms[1..|ms| - 1] == history
    ensures ms[|ms| - 1] == Message(User, query)
  {
    [Message(System, SystemMessage(role, context))] + history + [Message(User, query)]
  }

  /** The effect a generation outcome has on the session. */
  function EventOf(query: string, gen: GenResult): (ev: AskEvent)
    ensures ev.Answered? <==> gen.Generated?
    ensures ev.Answered? ==> ev.query == query && ev.answer == gen.answer
    ensures !ev.RetrievalFailed?
  {
    match gen
    case Generated(a) => Answered(query, a)
    case GenFailed => GenerationFailed
  }

  lemma UpdateTwice<K, V>(m: map<K, V>, k: K, a: V, b: V)
    ensures m[k := a][k := b] == m[k := b]
  {
  }

  /** DeepSeekBot: the index handle, the persona and the shared session store. */
  class Bot {
    var vectorstore: Store
    var retriever: Retriever
    const role: string
    const memories: SessionMemories

    /** The retriever always searches the current index, returning up to TOP_K records. */
    ghost predicate Valid()
      reads this
    {
      retriever == Retriever(vectorstore, TopK)
    }

    /**
     * Build or open the index from the knowledge folder, then set up the
     * retriever. `persisted` is the persist directory at start-up.
     */
    constructor (role: string, memories: SessionMemories, listing: seq<Entry>,
                 load: (Loader, string) -> LoadOutcome, split: seq<Document> -> seq<Document>,
                 persisted: Option<seq<Document>>)
      ensures Valid()
      ensures this.role == role && this.memories == memories
      ensures vectorstore == IndexAfter(Collected(listing, LoaderFor, load), split, persisted)
    {
      var store, _ := BuildOrUpdateVectorstore(listing, load, split, persisted);
      this.role := role;
      this.memories := memories;
      vectorstore := store;
      retriever := Retriever(store, TopK);
    }

    /**
     * `rebuild_vectorstore`: re-ingest the folder and swap in the new index
     * and retriever. `indexRaises` says that the index library raised while
     * opening, extending or building the index; the exception then leaves
     * the old index and retriever in place. Whether they were replaced is
     * returned.
     */
    method RebuildVectorstore(listing: seq<Entry>, load: (Loader, string) -> LoadOutcome,
                              split: seq<Document> -> seq<Document>, persisted: Option<seq<Document>>,
                              indexRaises: bool)
      returns (replaced: bool)
      modifies this
      ensures replaced == !indexRaises
      ensures replaced ==> Valid()
      ensures replaced ==> vectorstore == IndexAfter(Collected(listing, LoaderFor, load), split, persisted)
      ensures !replaced ==> unchanged(this)
    {
      var store, _ := BuildOrUpdateVectorstore(listing, load, split, persisted);
      if indexRaises {
        return false;
      }
      vectorstore := store;
      retriever := Retriever(store, TopK);
      replaced := true;
    }

    /**
     * `_get_memory`: create the session's history if it is new, cut it to
     * its most recent `Window` messages, and return it. No other session
     * changes.
     */
    method GetMemory(sessionId: string) returns (history: seq<Message>)
      modifies memories
      ensures history == Truncate(Lookup(old(memories.sessions), sessionId))
      ensures memories.sessions == Fetched(old(memories.sessions), sessionId)
      ensures old(memories.Bounded()) ==> memories.Bounded()
    {
      var mem := if sessionId in memories.sessions then memories.sessions[sessionId] else [];
      memories.sessions := memories.sessions[sessionId := mem];
      if |mem| > MaxTurns * 2 {
        memories.sessions := memories.sessions[sessionId := mem[|mem| - MaxTurns * 2..]];
      }
      history := memories.sessions[sessionId];
    }

    /**
     * `ask`: retrieve, then answer from what was retrieved. A retrieval
     * exception gives the fallback reply and leaves the store untouched.
     */
    method Ask(query: string, sessionId: string, search: Search, generate: Generate) returns (reply: string)
      requires Valid()
      modifies memories
      ensures search(vectorstore, TopK, query).None? ==>
        reply == Fallback && memories.sessions == old(memories.sessions)
      ensures search(vectorstore, TopK, query).Some? ==>
        var before := Lookup(old(memories.sessions), sessionId);
        var request := Messages(role, Context(search(vectorstore, TopK, query).value), Truncate(before), query);
        var gen := generate(ModelName, request);
        && reply == (if gen.Generated? then gen.answer else Fallback)
        && memories.sessions == old(memories.sessions)[sessionId := AfterAsk(before, EventOf(query, gen))]
      ensures old(memories.Bounded()) ==> memories.Bounded()
    {
      var found := search(retriever.store, retriever.k, query);
      if found.None? {
        return Fallback;
      }
      reply := Answer(query, sessionId, Context(found.value), generate);
    }

    /**
     * The rest of `ask` once the context is built: fetch the history,
     * assemble the request, generate, and on success append the question
     * and the answer to the session. A generation exception gives the
     * fallback reply and leaves the fetched (cut) history.
     */
    method Answer(query: string, sessionId: string, context: string, generate: Generate) returns (reply: string)
      modifies memories
      ensures var before := Lookup(old(memories.sessions), sessionId);
        var gen := generate(ModelName, Messages(role, context, Truncate(before), query));
        && reply == (if gen.Generated? then gen.answer else Fallback)
        && memories.sessions == old(memories.sessions)[sessionId := AfterAsk(before, EventOf(query, gen))]
      ensures old(memories.Bounded()) ==> memories.Bounded()
    {
      ghost var start := memories.sessions;
      ghost var before := Lookup(start, sessionId);
      var history := GetMemory(sessionId);
      assert memories.sessions == start[sessionId := history];
      var messages := Messages(role, context, history, query);
      var gen := generate(ModelName, messages);
      ghost var ev := EventOf(query, gen);
      if gen.Generated? {
        var exchange := [Message(User, query), Message(Assistant, gen.answer)];
        assert AfterAsk(before, ev) == history + exchange;
        memories.sessions := memories.sessions[sessionId := history + exchange];
        UpdateTwice(start, sessionId, history, history + exchange);
        reply := gen.answer;
      } else {
        assert AfterAsk(before, ev) == history;
        reply := Fallback;
      }
      if AllBounded(start) {
        AfterAskKeepsBound(start, sessionId, ev);
      }
    }
  }
}
