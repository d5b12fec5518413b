/** The in-memory audit trail of the bot: a newest-first list of executed actions, capped at
    100 entries, with the two read-only views the `auditlog` and `rankhistory` commands show. */
module Audit {
  import opened Wrappers
  import opened Text
  import opened Ranks

  /** The most entries the log keeps. */
  const Capacity: nat := 100

  /** How many entries the `auditlog` and `rankhistory` replies show. */
  const PageSize: nat := 6

  datatype Action = Promoted | Demoted | Kicked | SetRank

  /** One audit entry. `role` carries the logged rank name and number; it is absent for a
      kick. `timestamp` stands for the `Date` taken when the entry was made. */
  datatype Entry = Entry(username: string, action: Action, role: Option<RankDescriptor>, timestamp: int)

  /** The log after `unshift(e)` followed by `if (length > 100) pop()`: `e` is in front, the
      previous entries follow in order, and the oldest one is dropped only when the log
      would otherwise exceed the capacity. */
  function Recorded(log: seq<Entry>, e: Entry): (r: seq<Entry>)
    ensures |r| == if |log| < Capacity then |log| + 1 else |log|
    ensures r[0] == e
    ensures r[1..] == log[..|r| - 1]
  {
    var grown := [e] + log;
    if |grown| > Capacity then grown[..|grown| - 1] else grown
  }

  /** Recording into a log within capacity keeps it within capacity. */
  lemma RecordedWithinCapacity(log: seq<Entry>, e: Entry)
    requires |log| <= Capacity
    ensures |Recorded(log, e)| <= Capacity
  {
  }

  /** The module-level `actionLog` array. */
  class ActionLog {
    var entries: seq<Entry>

    ghost predicate Valid()
      reads this
    {
      |entries| <= Capacity
    }

    constructor ()
      ensures Valid() && entries == []
    {
      entries := [];
    }

    /** `actionLog.unshift(entry); if (actionLog.length > 100) actionLog.pop();` */
    method Record(e: Entry)
      requires Valid()
      modifies this
      ensures Valid()
      ensures entries == Recorded(old(entries), e)
    {
      entries := [e] + entries;
      if |entries| > Capacity {
        entries := entries[..|entries| - 1];
      }
    }
  }

  /** The log after recording `es` one after the other, first element first. */
  function RecordAll(log: seq<Entry>, es: seq<Entry>): seq<Entry>
    decreases |es|
  {
    if es == [] then log else RecordAll(Recorded(log, es[0]), es[1..])
  }

  /** Recording a single entry is one step of `Recorded`. */
  lemma RecordOne(log: seq<Entry>, e: Entry)
    ensures RecordAll(log, [e]) == Recorded(log, e)
  {
    assert [e][1..] == [];
  }

  /** The entries in the opposite order: the last one first. */
  function Reversed(s: seq<Entry>): (r: seq<Entry>)
    ensures |r| == |s|
    ensures forall k :: 0 <= k < |s| ==> r[k] == s[|s| - 1 - k]
    decreases |s|
  {
    if s == [] then [] else Reversed(s[1..]) + [s[0]]
  }

  /** `slice(0, limit)`: the first `limit` entries, or all of them when there are fewer. */
  function Latest(log: seq<Entry>, limit: nat): (r: seq<Entry>)
    ensures |r| == Min(limit, |log|)
    ensures forall i :: 0 <= i < |r| ==> r[i] == log[i]
  {
    log[..Min(limit, |log|)]
  }

  /** One record is the window of capacity over the log with the entry in front. */
  lemma RecordedIsWindow(log: seq<Entry>, e: Entry)
    requires |log| <= Capacity
    ensures Recorded(log, e) == Latest([e] + log, Capacity)
  {
  }

  lemma ReversedUnfold(es: seq<Entry>, log: seq<Entry>)
    requires es != []
    ensures Reversed(es[1..]) + ([es[0]] + log) == Reversed(es) + log
  {
  }

  lemma LatestOfLatest(a: seq<Entry>, b: seq<Entry>, n: nat)
    ensures Latest(a + Latest(b, n), n) == Latest(a + b, n)
  {
    var l := a + Latest(b, n);
    var m := a + b;
    assert |Latest(l, n)| == |Latest(m, n)|;
    forall i | 0 <= i < |Latest(l, n)|
      ensures Latest(l, n)[i] == Latest(m, n)[i]
    {
      if i >= |a| {
        assert l[i] == b[i - |a|];
      }
    }
  }

  /** A sliding window: after any sequence of records into a log within capacity, the log
      holds the newest entries first — the recorded ones in reverse order of recording,
      then the earlier log — cut at the capacity. */
  lemma {:induction false} RecordAllWindow(log: seq<Entry>, es: seq<Entry>)
    requires |log| <= Capacity
    ensures RecordAll(log, es) == Latest(Reversed(es) + log, Capacity)
    decreases |es|
  {
    if es == [] {
      assert Latest(log, Capacity) == log;
    } else {
      var next := Recorded(log, es[0]);
      RecordedIsWindow(log, es[0]);
      RecordAllWindow(next, es[1..]);
      LatestOfLatest(Reversed(es[1..]), [es[0]] + log, Capacity);
      ReversedUnfold(es, log);
    }
  }

  /** The log never exceeds its capacity, and the global audit view after a run of records
      shows the `n` most recently recorded entries, newest first (followed by older ones when
      fewer than `n` were recorded). */
  lemma RecentAfterRecords(log: seq<Entry>, es: seq<Entry>, n: nat)
    requires |log| <= Capacity && n <= Capacity
    ensures |RecordAll(log, es)| <= Capacity
    ensures Latest(RecordAll(log, es), n) == Latest(Reversed(es) + log, n)
  {
    RecordAllWindow(log, es);
    var all := Reversed(es) + log;
    assert Latest(Latest(all, Capacity), n) == Latest(all, n);
  }

  /** The `rankhistory` comparison: usernames equal after lower-casing. */
  predicate SameUser(a: string, b: string)
  {
    Lower(a) == Lower(b)
  }

  /** `filter(a => a.username.toLowerCase() === username.toLowerCase())`: exactly the entries
      of the log about `username`, and only those. */
  function ByUser(log: seq<Entry>, username: string): (r: seq<Entry>)
    ensures |r| <= |log|
    ensures forall x :: x in r <==> x in log && SameUser(x.username, username)
    decreases |log|
  {
    if log == [] then []
    else
      var rest := ByUser(log[1..], username);
      assert forall x :: x in log <==> x == log[0] || x in log[1..];
      if SameUser(log[0].username, username) then [log[0]] + rest else rest
  }

  /** The filter works piecewise, so it keeps the order of the log: the matches of an earlier
      part come before the matches of a later part. */
  lemma {:induction false} ByUserAppend(a: seq<Entry>, b: seq<Entry>, username: string)
    ensures ByUser(a + b, username) == ByUser(a, username) + ByUser(b, username)
    decreases |a|
  {
    if a == [] {
      assert a + b == b;
    } else {
      assert (a + b)[1..] == a[1..] + b;
      ByUserAppend(a[1..], b, username);
    }
  }

  /** The `rankhistory` view: the user's entries in log order, cut at `limit`. */
  function HistoryFor(log: seq<Entry>, username: string, limit: nat): seq<Entry>
  {
    Latest(ByUser(log, username), limit)
  }

  /** Recording an action puts it at the head of that user's history, whatever the case of
      the name they are later looked up by. */
  lemma HistoryAfterRecord(log: seq<Entry>, e: Entry, query: string)
    requires SameUser(e.username, query)
    ensures HistoryFor(Recorded(log, e), query, PageSize) != []
    ensures HistoryFor(Recorded(log, e), query, PageSize)[0] == e
  {
    var r := Recorded(log, e);
    assert r == [e] + r[1..];
    ByUserAppend([e], r[1..], query);
    assert ByUser([e], query) == [e];
  }

  /** Recording an action about someone else leaves a user's history as it was, except that
      an entry of theirs evicted at capacity disappears from its end. */
  lemma HistoryOfOthers(log: seq<Entry>, e: Entry, query: string)
    requires !SameUser(e.username, query)
    ensures ByUser(Recorded(log, e), query) == ByUser(log[..|Recorded(log, e)| - 1], query)
  {
    var r := Recorded(log, e);
    assert r == [e] + r[1..];
    ByUserAppend([e], r[1..], query);
    assert ByUser([e], query) == [];
  }

  function ActionName(a: Action): string
  {
    match a
    case Promoted => "Promoted"
    case Demoted => "Demoted"
    case Kicked => "Kicked"
    case SetRank => "SetRank"
  }

  /** `if (a.rankName)`: the entry carries a rank whose name is not empty. */
  predicate HasRankName(e: Entry)
  {
    e.role.Some? && e.role.value.name != ""
  }

  /** One `rankhistory` line. */
  function HistoryLine(e: Entry): string
  {
    if HasRankName(e) then
      "**" + ActionName(e.action) + "** - " + e.role.value.name + " (Rank: " + IntToString(e.role.value.rank) + ")"
    else "**" + ActionName(e.action) + "**"
  }

  /** One `auditlog` line; the user part is empty for an empty username. */
  function AuditLine(e: Entry): string
  {
    var userPart := if e.username != "" then "**" + e.username + "**" else "";
    if HasRankName(e) then
      userPart + " - **" + ActionName(e.action) + "** - " + e.role.value.name + " (Rank: " + IntToString(e.role.value.rank) + ")"
    else userPart + " - **" + ActionName(e.action) + "**"
  }

  function HistoryLines(h: seq<Entry>): (lines: seq<string>)
  {
    seq(|h|, i requires 0 <= i < |h| => HistoryLine(h[i]))
  }

  function AuditLines(h: seq<Entry>): (lines: seq<string>)
  {
    seq(|h|, i requires 0 <= i < |h| => AuditLine(h[i]))
  }
}
