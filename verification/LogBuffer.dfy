/** The ring buffer of log entries (src/admin/logs.rs, 77-172). */
module LogBuffers {
  import opened Prelude

  const CAPACITY := 1000

  datatype LogEntry = LogEntry(ts: nat, level: string, message: string, target: string)

  /** Lower is more severe. */
  function LevelOrder(level: string): Option<nat> {
    match level
    case "ERROR" => Some(0)
    case "WARN" => Some(1)
    case "INFO" => Some(2)
    case "DEBUG" => Some(3)
    case "TRACE" => Some(4)
    case _ => None
  }

  /** `query` occurs in s. */
  predicate Contains(s: string, query: string) {
    StartsWith(s, query) || (s != [] && Contains(s[1..], query))
  }

  /** An entry of unknown level counts as an error; an unknown minimum level filters nothing. */
  predicate LevelPasses(minLevel: Option<string>, e: LogEntry) {
    match minLevel
    case None => true
    case Some(l) =>
      match LevelOrder(l)
      case None => true
      case Some(most) => (var o := LevelOrder(e.level); (if o.Some? then o.value else 0) <= most)
  }

  predicate SearchPasses(search: Option<string>, e: LogEntry) {
    search.Some? ==>
      var q := Lower(search.value);
      Contains(Lower(e.level), q) || Contains(Lower(e.target), q) || Contains(Lower(e.message), q)
  }

  predicate Passes(minLevel: Option<string>, search: Option<string>, e: LogEntry) {
    LevelPasses(minLevel, e) && SearchPasses(search, e)
  }

  /** The entries that pass, newest (last) first. */
  function Newest(s: seq<LogEntry>, minLevel: Option<string>, search: Option<string>): (r: seq<LogEntry>)
    ensures |r| <= |s|
  {
    if s == [] then []
    else
      (if Passes(minLevel, search, s[|s| - 1]) then [s[|s| - 1]] else [])
      + Newest(s[..|s| - 1], minLevel, search)
  }

  function First(s: seq<LogEntry>, n: nat): seq<LogEntry> { s[..Min(|s|, n)] }

  /** A full ring from its oldest entry to its newest one, which is at w. */
  function Ring(entries: seq<LogEntry>, w: nat): seq<LogEntry>
    requires w < |entries|
  {
    entries[w + 1..] + entries[..w + 1]
  }

  lemma RingStep(entries: seq<LogEntry>, w: nat, entry: LogEntry)
    requires w < |entries|
    ensures var next := (if w + 1 == |entries| then 0 else w + 1);
            Ring(entries[next := entry], next) == Ring(entries, w)[1..] + [entry]
  {
  }

  lemma FirstIs(r: seq<LogEntry>, rest: seq<LogEntry>, n: nat)
    requires |r| == n || (|r| < n && rest == [])
    ensures First(r + rest, n) == r
  {
  }

  class LogBuffer {
    var entries: seq<LogEntry>
    var writePos: nat
    var len: nat
    ghost var pushed: seq<LogEntry>  // everything ever pushed

    ghost predicate Valid()
      reads this
    {
      && |entries| == len <= CAPACITY
      && (0 < len < CAPACITY ==> writePos == len - 1)
      && (len == CAPACITY ==> writePos < CAPACITY)
      && Contents() == Last(pushed, CAPACITY)
    }

    /** The entries, oldest first. */
    ghost function Contents(): seq<LogEntry>
      reads this
    {
      if len == CAPACITY == |entries| && writePos < CAPACITY then Ring(entries, writePos) else entries
    }

    constructor ()
      ensures Valid() && pushed == []
    {
      entries, writePos, len, pushed := [], 0, 0, [];
    }

    method Push(entry: LogEntry)
      requires Valid()
      modifies this
      ensures Valid() && pushed == old(pushed) + [entry]
    {
      LastPush(pushed, entry, CAPACITY);
      if len < CAPACITY {
        entries := entries + [entry];
        writePos := len;
        len := len + 1;
      } else {
        RingStep(entries, writePos, entry);
        var next := (writePos + 1) % CAPACITY;
        entries := entries[next := entry];
        writePos := next;
      }
      pushed := pushed + [entry];
    }

    /** The entry that i others are newer than. */
    method NthNewest(i: nat) returns (entry: LogEntry)
      requires Valid() && i < len
      ensures |Contents()| == len && entry == Contents()[len - 1 - i]
    {
      entry := entries[if len < CAPACITY then len - 1 - i else (writePos + CAPACITY - i) % CAPACITY];
    }

    /** The newest passing entries, at most `limit` of them; but one if the limit is 0. */
    method Recent(limit: nat, minLevel: Option<string>, search: Option<string>) returns (result: seq<LogEntry>)
      requires Valid()
      ensures result == First(Newest(Last(pushed, 1000), minLevel, search), Max(limit, 1))
    {
      hide Passes, Newest, First;
      ghost var all := Last(pushed, CAPACITY);
      assert all == Contents();
      result := [];
      assert all[..len] == all;
      for i := 0 to len
        invariant Newest(all, minLevel, search) == result + Newest(all[..len - i], minLevel, search)
        invariant |result| < Max(limit, 1)
      {
        var entry := NthNewest(i);
        NewestStep(all, len - i, minLevel, search);
        if Passes(minLevel, search, entry) {
          ghost var rest := Newest(all[..len - i - 1], minLevel, search);
          Regroup(result, [entry], rest);
          result := result + [entry];
          if |result| >= limit {
            FirstIs(result, rest, Max(limit, 1));
            return;
          }
        }
      }
      NewestNone(all, minLevel, search);
      FirstIs(result, [], Max(limit, 1));
    }
  }

  lemma NewestNone(s: seq<LogEntry>, minLevel: Option<string>, search: Option<string>)
    ensures Newest(s[..0], minLevel, search) == []
  {
  }

  lemma NewestStep(s: seq<LogEntry>, k: nat, minLevel: Option<string>, search: Option<string>)
    requires 0 < k <= |s|
    ensures var rest := Newest(s[..k - 1], minLevel, search);
            Newest(s[..k], minLevel, search) ==
              if Passes(minLevel, search, s[k - 1]) then [s[k - 1]] + rest else rest
  {
    hide Passes;
    assert s[..k][..k - 1] == s[..k - 1];
  }

  // ---- what `Recent` means ----

  lemma Regroup(a: seq<LogEntry>, b: seq<LogEntry>, c: seq<LogEntry>)
    ensures a + (b + c) == (a + b) + c
  {
  }

  lemma NewestPush(s: seq<LogEntry>, e: LogEntry, minLevel: Option<string>, search: Option<string>)
    ensures Newest(s + [e], minLevel, search) ==
              (if Passes(minLevel, search, e) then [e] else []) + Newest(s, minLevel, search)
  {
    hide Passes;
    assert (s + [e])[..|s|] == s;
  }

  lemma {:induction false} NewestAppend(s: seq<LogEntry>, t: seq<LogEntry>, minLevel: Option<string>, search: Option<string>)
    ensures Newest(s + t, minLevel, search) == Newest(t, minLevel, search) + Newest(s, minLevel, search)
  {
    if t == [] {
      assert s + t == s;
    } else {
      hide Passes, Newest;
      var front, e := t[..|t| - 1], t[|t| - 1];
      assert t == front + [e];
      Regroup(s, front, [e]);
      NewestAppend(s, front, minLevel, search);
      NewestPush(front, e, minLevel, search);
      NewestPush(s + front, e, minLevel, search);
      Regroup(if Passes(minLevel, search, e) then [e] else [],
              Newest(front, minLevel, search), Newest(s, minLevel, search));
    }
  }

  /** Exactly the passing entries are found. */
  lemma {:induction false} NewestMembers(s: seq<LogEntry>, minLevel: Option<string>, search: Option<string>, e: LogEntry)
    ensures multiset(Newest(s, minLevel, search))[e] == if Passes(minLevel, search, e) then multiset(s)[e] else 0
  {
    hide Passes;
    if s != [] {
      assert s == s[..|s| - 1] + [s[|s| - 1]];
      NewestMembers(s[..|s| - 1], minLevel, search, e);
    }
  }

  /** Against the whole history nothing but entries older than the last 1000 can be missing: the
      answer is the one an unbounded log would give, unless that has fewer than `limit` passing
      entries among its last 1000. */
  lemma RecentIsUnbounded(pushed: seq<LogEntry>, limit: nat, minLevel: Option<string>, search: Option<string>)
    ensures First(Newest(Last(pushed, 1000), minLevel, search), limit) == First(Newest(pushed, minLevel, search), limit)
            <==> |Newest(Last(pushed, 1000), minLevel, search)| >= Min(limit, |Newest(pushed, minLevel, search)|)
  {
    hide Passes;
    var kept := Last(pushed, CAPACITY);
    var gone := pushed[..|pushed| - |kept|];
    assert pushed == gone + kept;
    NewestAppend(gone, kept, minLevel, search);
  }

  /** The limit is respected unless it is 0 and some entry passes; then one entry comes back. */
  lemma LimitRespected(pushed: seq<LogEntry>, limit: nat, minLevel: Option<string>, search: Option<string>)
    ensures var kept := Last(pushed, 1000);
            |First(Newest(kept, minLevel, search), Max(limit, 1))| <= limit
            <==> limit > 0 || forall e :: e in kept ==> !Passes(minLevel, search, e)
  {
    var kept := Last(pushed, CAPACITY);
    var found := Newest(kept, minLevel, search);
    forall e ensures e in kept && Passes(minLevel, search, e) <==> e in found {
      NewestMembers(kept, minLevel, search, e);
      assert e in kept <==> multiset(kept)[e] > 0;
      assert e in found <==> multiset(found)[e] > 0;
    }
    if found != [] { assert found[0] in found; }
  }

  // ---- what the filters let through ----

  const LEVELS: seq<string> := ["ERROR", "WARN", "INFO", "DEBUG", "TRACE"]

  lemma LevelsDiffer()
    ensures LEVELS[0] != LEVELS[1] && LEVELS[0] != LEVELS[2] && LEVELS[0] != LEVELS[3] && LEVELS[0] != LEVELS[4]
    ensures LEVELS[1] != LEVELS[2] && LEVELS[1] != LEVELS[3] && LEVELS[1] != LEVELS[4]
    ensures LEVELS[2] != LEVELS[3] && LEVELS[2] != LEVELS[4] && LEVELS[3] != LEVELS[4]
  {
    assert LEVELS[0][0] == 'E' && LEVELS[3][0] == 'D' && LEVELS[4][0] == 'T';
    assert LEVELS[1][0] == 'W' && LEVELS[2][0] == 'I';
  }

  /** The level's place among the five, the most severe being 0. */
  lemma LevelOrderIs(level: string)
    ensures match LevelOrder(level)
            case Some(i) => i < 5 && LEVELS[i] == level
            case None => level !in LEVELS
    ensures forall i :: 0 <= i < 5 && LEVELS[i] == level ==> LevelOrder(level) == Some(i)
  {
    LevelsDiffer();
  }

  /** An entry passes a minimum level if it is at least as severe. A minimum that is none of the five
      levels lets everything through; an entry whose level is none of them always passes. */
  lemma LevelPassesExactly(minLevel: Option<string>, e: LogEntry)
    ensures LevelPasses(minLevel, e) <==>
              || minLevel == None || minLevel.value !in LEVELS || e.level !in LEVELS
              || exists i, j :: 0 <= i <= j < 5 && LEVELS[i] == e.level && LEVELS[j] == minLevel.value
  {
    LevelOrderIs(e.level);
    if minLevel.Some? { LevelOrderIs(minLevel.value); }
    hide LevelOrder;
  }

  /** At position i of s stands q, up to ASCII case. */
  predicate StandsAt(s: string, q: string, i: nat) {
    i + |q| <= |s| && SameUpToCase(s[i..i + |q|], q)
  }

  ghost predicate Mentions(s: string, q: string) {
    exists i :: StandsAt(s, q, i)
  }

  lemma {:induction false} ContainsMentions(s: string, q: string)
    ensures Contains(Lower(s), Lower(q)) <==> Mentions(s, q)
  {
    BeginsStands(s, q);
    hide LowerChar, SameLetter, SameUpToCase;
    if s != [] {
      assert Lower(s)[1..] == Lower(s[1..]);
      ContainsMentions(s[1..], q);
      if i: nat :| StandsAt(s[1..], q, i) {
        assert s[1..][i..i + |q|] == s[i + 1..i + 1 + |q|];
        assert StandsAt(s, q, i + 1);
      }
      if i: nat :| StandsAt(s, q, i) && i > 0 {
        assert s[1..][i - 1..i - 1 + |q|] == s[i..i + |q|];
        assert StandsAt(s[1..], q, i - 1);
      }
    }
  }

  lemma BeginsStands(s: string, q: string)
    ensures StartsWith(Lower(s), Lower(q)) <==> StandsAt(s, q, 0)
  {
    if |q| <= |s| {
      LowerForgetsCase(s[..|q|], q);
      assert Lower(s)[..|q|] == Lower(s[..|q|]);
      hide Lower, SameUpToCase;
    }
  }

  /** An entry passes a search if its level, target or message mentions the text, up to ASCII case. */
  lemma SearchPassesExactly(search: Option<string>, e: LogEntry)
    ensures SearchPasses(search, e) <==>
              search == None || Mentions(e.level, search.value) || Mentions(e.target, search.value) || Mentions(e.message, search.value)
  {
    if search.Some? {
      ContainsMentions(e.level, search.value);
      ContainsMentions(e.target, search.value);
      ContainsMentions(e.message, search.value);
    }
    hide Contains, Lower, Mentions;
  }
}
