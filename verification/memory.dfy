/**
 * Per-session conversational memory: the process-wide map from session id to
 * an ordered list of `{role, content}` messages, and the sliding window that
 * bounds what a session remembers.
 */
module SessionMemory {

  /** Who wrote a message; `System` only ever heads a request to the model. */
  datatype Role = System | User | Assistant

  /** One `{role, content}` entry of a history or of a request. */
  datatype Message = Message(role: Role, content: string)

  /** MAX_TURNS: question/answer exchanges a session keeps. */
  const MaxTurns: nat := 10

  /** A history fetched from the store holds at most this many messages. */
  const Window: nat := 2 * MaxTurns

  /** The history stored for `sessionId`, or the empty one a first lookup creates. */
  function Lookup(sessions: map<string, seq<Message>>, sessionId: string): seq<Message> {
    if sessionId in sessions then sessions[sessionId] else []
  }

  /**
   * The cut applied on every fetch: a history longer than the window keeps
   * only its most recent `Window` messages, in their original order.
   */
  function Truncate(h: seq<Message>): (r: seq<Message>)
    ensures |r| <= Window
    ensures |h| <= Window ==> r == h
    ensures |h| > Window ==> |r| == Window
    ensures h == h[..|h| - |r|] + r
  {
    if |h| > Window then h[|h| - Window..] else h
  }

  /** The last `min(|s|, n)` elements of `s`. */
  function Last<T>(s: seq<T>, n: nat): seq<T> {
    if |s| <= n then s else s[|s| - n..]
  }

  /** Fetching twice cuts nothing more than fetching once. */
  lemma TruncateIdempotent(h: seq<Message>)
    ensures Truncate(Truncate(h)) == Truncate(h)
  {
  }

  /** Truncation leaves a history unchanged exactly when it already fits the window. */
  lemma TruncateFixedPoint(h: seq<Message>)
    ensures Truncate(h) == h <==> |h| <= Window
  {
  }

  lemma LastOfLast<T>(s: seq<T>, m: nat, n: nat)
    requires n <= m
    ensures Last(Last(s, m), n) == Last(s, n)
  {
  }

  lemma LastAppend<T>(s: seq<T>, t: seq<T>, n: nat)
    ensures Last(s, n) + t == Last(s + t, n + |t|)
  {
  }

  lemma TruncateIsLast(h: seq<Message>)
    ensures Truncate(h) == Last(h, Window)
  {
  }

  /**
   * The store after fetching `sessionId`: that session is created if new
   * and cut to the window; every other session is left as it was.
   */
  function Fetched(sessions: map<string, seq<Message>>, sessionId: string): map<string, seq<Message>> {
    sessions[sessionId := Truncate(Lookup(sessions, sessionId))]
  }

  /** What a fetch does to the store, key by key. */
  lemma FetchSpec(sessions: map<string, seq<Message>>, sessionId: string)
    ensures var r := Fetched(sessions, sessionId);
      && r.Keys == sessions.Keys + {sessionId}
      && (forall s :: s in sessions && s != sessionId ==> r[s] == sessions[s])
      && |r[sessionId]| <= Window
      && (sessionId !in sessions ==> r[sessionId] == [])
  {
  }

  /** A second fetch of the same session changes nothing. */
  lemma FetchIdempotent(sessions: map<string, seq<Message>>, sessionId: string)
    ensures Fetched(Fetched(sessions, sessionId), sessionId) == Fetched(sessions, sessionId)
  {
  }

  /** A fetch leaves the store as it was exactly when the session exists and fits the window. */
  lemma FetchUnchanged(sessions: map<string, seq<Message>>, sessionId: string)
    ensures Fetched(sessions, sessionId) == sessions <==>
      sessionId in sessions && |sessions[sessionId]| <= Window
  {
  }

  /** What happened to one session during one question. */
  datatype AskEvent =
    | RetrievalFailed                              // raised before the history was fetched
    | GenerationFailed                             // raised after the fetch, before the append
    | Answered(query: string, answer: string)      // the model replied

  /** The session's stored history after one question, given the history before it. */
  function AfterAsk(h: seq<Message>, ev: AskEvent): (r: seq<Message>)
    ensures ev.RetrievalFailed? ==> r == h
    ensures ev.GenerationFailed? ==> |r| <= Window && r == Truncate(h)
    ensures ev.Answered? ==>
      && 2 <= |r| <= Window + 2
      && r[..|r| - 2] == Truncate(h)
      && r[|r| - 2..] == [Message(User, ev.query), Message(Assistant, ev.answer)]
  {
    match ev
    case RetrievalFailed => h
    case GenerationFailed => Truncate(h)
    case Answered(q, a) => Truncate(h) + [Message(User, q), Message(Assistant, a)]
  }

  /**
   * What a question keeps of the history before it is a suffix of that
   * history: after a generation failure, the whole result; after an answer,
   * everything but the new exchange.
   */
  lemma AfterAskKeepsSuffix(h: seq<Message>, ev: AskEvent)
    ensures ev.GenerationFailed? ==>
      var r := AfterAsk(h, ev);
      |r| <= |h| && r == h[|h| - |r|..]
    ensures ev.Answered? ==>
      var r := AfterAsk(h, ev);
      |r| - 2 <= |h| && r[..|r| - 2] == h[|h| - (|r| - 2)..]
  {
    var t := Truncate(h);
    assert h == h[..|h| - |t|] + t;
    assert h[|h| - |t|..] == t;
  }

  /** The messages an answered question appends to its session. */
  function Appended(ev: AskEvent): seq<Message> {
    if ev.Answered? then [Message(User, ev.query), Message(Assistant, ev.answer)] else []
  }

  /** The exchanges that were answered, flattened into the messages they append. */
  function Answers(evs: seq<AskEvent>): seq<Message> {
    if evs == [] then [] else Answers(evs[..|evs| - 1]) + Appended(evs[|evs| - 1])
  }

  /** The history stored for a session that has seen exactly the questions `evs`. */
  function HistoryAfter(evs: seq<AskEvent>): seq<Message> {
    if evs == [] then [] else AfterAsk(HistoryAfter(evs[..|evs| - 1]), evs[|evs| - 1])
  }

  /** One question turns a recent window of `all` into a recent window of `all` plus what it appends. */
  lemma StepKeepsWindow(h: seq<Message>, all: seq<Message>, ev: AskEvent)
    requires h == Last(all, Window) || h == Last(all, Window + 2)
    ensures AfterAsk(h, ev) == Last(all + Appended(ev), Window)
         || AfterAsk(h, ev) == Last(all + Appended(ev), Window + 2)
    ensures Truncate(AfterAsk(h, ev)) == Last(all + Appended(ev), Window)
  {
    TruncateIsLast(h);
    LastOfLast(all, Window + 2, Window);
    assert Truncate(h) == Last(all, Window);
    match ev
    case RetrievalFailed =>
      assert all + Appended(ev) == all;
      TruncateIsLast(AfterAsk(h, ev));
    case GenerationFailed =>
      assert all + Appended(ev) == all;
      TruncateIdempotent(h);
    case Answered(q, a) =>
      var r := AfterAsk(h, ev);
      assert r == Truncate(h) + Appended(ev);
      LastAppend(all, Appended(ev), Window);
      assert r == Last(all + Appended(ev), Window + 2);
      TruncateIsLast(r);
      LastOfLast(all + Appended(ev), Window + 2, Window);
  }

  /**
   * Whatever mix of answered and failed questions a session has seen, the
   * stored history is the tail of all answered exchanges of length
   * `Window` or `Window + 2`, and what the next fetch hands to the model is
   * exactly the most recent `Window` messages of those exchanges, oldest first.
   */
  lemma {:induction false} HistoryIsRecentWindow(evs: seq<AskEvent>)
    ensures HistoryAfter(evs) == Last(Answers(evs), Window)
         || HistoryAfter(evs) == Last(Answers(evs), Window + 2)
    ensures Truncate(HistoryAfter(evs)) == Last(Answers(evs), Window)
  {
    if evs != [] {
      var pre := evs[..|evs| - 1];
      HistoryIsRecentWindow(pre);
      StepKeepsWindow(HistoryAfter(pre), Answers(pre), evs[|evs| - 1]);
    }
  }

  /** SESSION_MEMORIES: the process-wide store of session histories. */
  class SessionMemories {
    var sessions: map<string, seq<Message>>

    constructor ()
      ensures sessions == map[]
    {
      sessions := map[];
    }

    /**
     * Between questions no stored history is longer than the window plus the
     * one exchange appended after the last fetch.
     */
    ghost predicate Bounded()
      reads this
    {
      AllBounded(sessions)
    }
  }

  /** No history in the store is longer than the window plus one exchange. */
  ghost predicate AllBounded(sessions: map<string, seq<Message>>) {
    forall s :: s in sessions ==> |sessions[s]| <= Window + 2
  }

  /** Storing the outcome of a question for one session keeps every history bounded. */
  lemma AfterAskKeepsBound(sessions: map<string, seq<Message>>, sessionId: string, ev: AskEvent)
    requires AllBounded(sessions)
    ensures AllBounded(sessions[sessionId := AfterAsk(Lookup(sessions, sessionId), ev)])
    ensures AllBounded(sessions[sessionId := Truncate(Lookup(sessions, sessionId))])
  {
    var h := Lookup(sessions, sessionId);
    assert |AfterAsk(h, ev)| <= Window + 2;
    assert |Truncate(h)| <= Window;
    UpdateKeepsBound(sessions, sessionId, AfterAsk(h, ev));
    UpdateKeepsBound(sessions, sessionId, Truncate(h));
  }

  lemma UpdateKeepsBound(sessions: map<string, seq<Message>>, sessionId: string, h: seq<Message>)
    requires AllBounded(sessions) && |h| <= Window + 2
    ensures AllBounded(sessions[sessionId := h])
  {
    var m := sessions[sessionId := h];
    forall s | s in m
      ensures |m[s]| <= Window + 2
    {
      if s != sessionId {
        assert m[s] == sessions[s];
      }
    }
  }
}
