/**
 * Hot reload of the knowledge folder: every file-system event asks for a
 * rebuild of the bot's index, and a debounce gate lets through only events
 * that come at least one second after the last event it let through.
 * Times are whole milliseconds.
 */
module Watcher {
  import opened Wrappers
  import opened Ingestion
  import opened Assistant

  /** The debounce window: one second. */
  const DebounceMs: int := 1000

  /** An event at `now` passes the gate whose last accepted time is `last`. */
  predicate Accepts(last: int, now: int) {
    now - last >= DebounceMs
  }

  /**
   * The times, among `times`, of the events that trigger a rebuild, for a
   * gate that last accepted at `last`. Each is one of the event times, the
   * first is a full window after `last`, and each is a full window after the
   * one before it.
   */
  function Triggers(last: int, times: seq<int>): (r: seq<int>)
    ensures |r| <= |times|
    ensures forall k :: 0 <= k < |r| ==> r[k] in times
    ensures r != [] ==> r[0] - last >= DebounceMs
    ensures forall k :: 0 <= k < |r| - 1 ==> r[k + 1] - r[k] >= DebounceMs
    decreases |times|
  {
    if times == [] then []
    else if Accepts(last, times[0]) then [times[0]] + Triggers(times[0], times[1..])
    else Triggers(last, times[1..])
  }

  /** The gate's last accepted time after the events `times`. */
  function GateAfter(last: int, times: seq<int>): int
    decreases |times|
  {
    if times == [] then last
    else if Accepts(last, times[0]) then GateAfter(times[0], times[1..])
    else GateAfter(last, times[1..])
  }

  /** The gate ends at the last trigger, or where it started when nothing triggered. */
  lemma {:induction false} GateAfterIsLastTrigger(last: int, times: seq<int>)
    ensures var r := Triggers(last, times);
      GateAfter(last, times) == if r == [] then last else r[|r| - 1]
    decreases |times|
  {
    if times != [] {
      GateAfterIsLastTrigger(if Accepts(last, times[0]) then times[0] else last, times[1..]);
    }
  }

  /** Events processed in two runs trigger what the two runs trigger one after the other. */
  lemma {:induction false} TriggersAppend(last: int, a: seq<int>, b: seq<int>)
    ensures Triggers(last, a + b) == Triggers(last, a) + Triggers(GateAfter(last, a), b)
    decreases |a|
  {
    if a != [] {
      assert (a + b)[1..] == a[1..] + b;
      TriggersAppend(if Accepts(last, a[0]) then a[0] else last, a[1..], b);
    } else {
      assert a + b == b;
    }
  }

  /** Events that all fall inside the window after `last` trigger nothing. */
  lemma {:induction false} QuietWithinWindow(last: int, times: seq<int>)
    requires forall k :: 0 <= k < |times| ==> times[k] - last < DebounceMs
    ensures Triggers(last, times) == []
    ensures GateAfter(last, times) == last
    decreases |times|
  {
    if times != [] {
      QuietWithinWindow(last, times[1..]);
    }
  }

  /**
   * A burst: its first event passes the gate and every later event falls
   * inside the window after the first. It triggers exactly one rebuild, at
   * its first event.
   */
  lemma BurstTriggersOnce(last: int, burst: seq<int>)
    requires burst != [] && Accepts(last, burst[0])
    requires forall k :: 0 < k < |burst| ==> burst[k] - burst[0] < DebounceMs
    ensures Triggers(last, burst) == [burst[0]]
    ensures GateAfter(last, burst) == burst[0]
  {
    QuietWithinWindow(burst[0], burst[1..]);
  }

  /** Two bursts, the second starting a full window after the first began, rebuild twice. */
  lemma TwoBurstsTriggerTwice(last: int, first: seq<int>, second: seq<int>)
    requires first != [] && Accepts(last, first[0])
    requires forall k :: 0 < k < |first| ==> first[k] - first[0] < DebounceMs
    requires second != [] && Accepts(first[0], second[0])
    requires forall k :: 0 < k < |second| ==> second[k] - second[0] < DebounceMs
    ensures Triggers(last, first + second) == [first[0], second[0]]
  {
    TriggersAppend(last, first, second);
    BurstTriggersOnce(last, first);
    BurstTriggersOnce(first[0], second);
  }

  /** `_KnowledgeHandler`: the bot to rebuild and the time of the last accepted event. */
  class KnowledgeHandler {
    const botRef: Bot
    var last: int

    constructor (botRef: Bot)
      ensures this.botRef == botRef && last == 0
    {
      this.botRef := botRef;
      last := 0;
    }

    /**
     * `on_any_event` for an event at `now`: when the gate accepts it, record
     * `now` and rebuild the bot's index from the folder; otherwise change
     * nothing. Whether a rebuild was started is returned. The time is
     * recorded before the rebuild, so a rebuild whose index library raises
     * (`indexRaises`) leaves the old index and still closes the gate for
     * the next second.
     */
    method OnAnyEvent(now: int, listing: seq<Entry>, load: (Loader, string) -> LoadOutcome,
                      split: seq<Document> -> seq<Document>, persisted: Option<seq<Document>>,
                      indexRaises: bool)
      returns (rebuilt: bool)
      modifies this, botRef
      ensures rebuilt == Accepts(old(last), now)
      ensures last == GateAfter(old(last), [now])
      ensures Triggers(old(last), [now]) == (if rebuilt then [now] else [])
      ensures rebuilt && !indexRaises ==>
        && botRef.Valid()
        && botRef.vectorstore == IndexAfter(Collected(listing, LoaderFor, load), split, persisted)
      ensures !rebuilt || indexRaises ==> unchanged(botRef)
    {
      if now - last < DebounceMs {
        return false;
      }
      last := now;
      var _ := botRef.RebuildVectorstore(listing, load, split, persisted, indexRaises);
      rebuilt := true;
    }
  }
}
