/** The deliberation history: newest entry first, at most one hundred kept. */
module History {
  import opened Wrappers
  import opened Parser

  const HISTORY_LIMIT: nat := 100

  /** One recorded deliberation. `id` and `timestamp` are the clock readings
      the caller formats (compact date-time and ISO form); `userId` is absent
      for the variant that records no user. */
  datatype HistoryEntry = HistoryEntry(
    id: string, timestamp: string, userId: Option<string>,
    question: string, fileName: string,
    results: seq<Verdict>, finalScore: int, summary: string)

  function Min(a: nat, b: nat): nat {
    if a < b then a else b
  }

  /** The history after recording `e`: `e` first, then the earlier entries in
      their order, cut to the limit. */
  function Recorded(h: seq<HistoryEntry>, e: HistoryEntry): (r: seq<HistoryEntry>)
    ensures |r| == Min(|h| + 1, HISTORY_LIMIT)
    ensures r[0] == e
    ensures forall i | 1 <= i < |r| :: r[i] == h[i - 1]
  {
    ([e] + h)[..Min(|h| + 1, HISTORY_LIMIT)]
  }

  /** Recording the entries of `es` one after the other, `es[0]` first. */
  function RecordedAll(h: seq<HistoryEntry>, es: seq<HistoryEntry>): seq<HistoryEntry>
    decreases |es|
  {
    if es == [] then h else RecordedAll(Recorded(h, es[0]), es[1..])
  }

  function Reversed(es: seq<HistoryEntry>): (r: seq<HistoryEntry>)
    ensures |r| == |es| && forall i | 0 <= i < |es| :: r[i] == es[|es| - 1 - i]
    decreases |es|
  {
    if es == [] then [] else Reversed(es[1..]) + [es[0]]
  }

  /** After any run of recordings the history is the new entries, newest
      first, followed by the older history, cut to the limit. (A history read
      back longer than the limit is only cut at the first recording.) */
  lemma {:induction false} RecordedAllNewestFirst(h: seq<HistoryEntry>, es: seq<HistoryEntry>)
    requires es != [] || |h| <= HISTORY_LIMIT
    ensures RecordedAll(h, es) == (Reversed(es) + h)[..Min(|h| + |es|, HISTORY_LIMIT)]
    decreases |es|
  {
    if es == [] {
      assert (Reversed(es) + h)[..Min(|h|, HISTORY_LIMIT)] == h;
    } else {
      var h1 := Recorded(h, es[0]);
      RecordedAllNewestFirst(h1, es[1..]);
      var full := Reversed(es) + h;
      var lhs := (Reversed(es[1..]) + h1)[..Min(|h1| + |es| - 1, HISTORY_LIMIT)];
      assert |lhs| == Min(|h| + |es|, HISTORY_LIMIT);
      forall i | 0 <= i < |lhs|
        ensures lhs[i] == full[i]
      {
        if i < |es| - 1 {
        } else if i == |es| - 1 {
        } else {
          assert lhs[i] == h1[i - (|es| - 1)] == h[i - |es|];
        }
      }
    }
  }

  /** The persisted history, as a store of entries that deliberations are
      added to. */
  class HistoryStore {
    var entries: seq<HistoryEntry>

    constructor (entries: seq<HistoryEntry>)
      ensures this.entries == entries
    {
      this.entries := entries;
    }

    /** Record a deliberation without a user. */
    method AddHistory(id: string, timestamp: string, question: string, results: seq<Verdict>,
                      finalScore: int, summary: string, fileName: string)
      modifies this
      ensures entries == Recorded(old(entries), HistoryEntry(id, timestamp, None, question, fileName, results, finalScore, summary))
      ensures |entries| <= HISTORY_LIMIT
    {
      var entry := HistoryEntry(id, timestamp, None, question, fileName, results, finalScore, summary);
      var history := [entry] + entries;
      entries := history[..Min(|history|, HISTORY_LIMIT)];
    }

    /** Record a deliberation with the user who asked it. */
    method AddHistoryWithUser(userId: string, id: string, timestamp: string, question: string,
                              results: seq<Verdict>, finalScore: int, summary: string, fileName: string)
      modifies this
      ensures entries == Recorded(old(entries), HistoryEntry(id, timestamp, Some(userId), question, fileName, results, finalScore, summary))
      ensures |entries| <= HISTORY_LIMIT
    {
      var entry := HistoryEntry(id, timestamp, Some(userId), question, fileName, results, finalScore, summary);
      var history := [entry] + entries;
      entries := history[..Min(|history|, HISTORY_LIMIT)];
    }
  }
}
