/** The sliding-window limiter: a list of the recent requests of each key. */
module RateLimits {

  /** Subtraction of unsigned numbers that stops at zero. */
  function Less0(a: nat, b: nat): nat {
    if a < b then 0 else a - b
  }

  /** The times after the cutoff. */
  function Retained(times: seq<nat>, cutoff: nat): seq<nat> {
    if times == [] then [] else (if times[0] > cutoff then [times[0]] else []) + Retained(times[1..], cutoff)
  }

  function First(times: seq<nat>, otherwise: nat): nat {
    if times == [] then otherwise else times[0]
  }

  function Max(a: nat, b: nat): nat {
    if a < b then b else a
  }

  /** Seconds after which to try again, or nothing when the request is let through. */
  datatype Verdict = Allowed | RetryAfter(seconds: nat)

  function Judge(times: seq<nat>, now: nat, limit: nat, window: nat): Verdict {
    var recent := Retained(times, Less0(now, window));
    if |recent| >= limit then RetryAfter(Max(Less0(First(recent, now) + window, now), 1)) else Allowed
  }

  ghost predicate Sorted(times: seq<nat>) {
    forall i, j :: 0 <= i <= j < |times| ==> times[i] <= times[j]
  }

  /** Of requests that many apart, the later comes at least a window after the earlier, unless that was at zero. */
  ghost predicate Spaced(times: seq<nat>, limit: nat, window: nat) {
    forall i :: 0 <= i < |times| - limit ==> Gap(times, i, limit, window)
  }

  ghost predicate Gap(times: seq<nat>, i: int, limit: nat, window: nat)
    requires 0 <= i < |times| - limit
  {
    times[i] == 0 || times[i] + window <= times[i + limit]
  }

  /** How many of the times fall into a window that starts at `from`. */
  function CountIn(times: seq<nat>, from: nat, window: nat): nat {
    if times == [] then 0 else (if from <= times[0] < from + window then 1 else 0) + CountIn(times[1..], from, window)
  }

  /** In a sorted list the retained times are a suffix. */
  lemma {:induction false} RetainedIs(times: seq<nat>, cutoff: nat) returns (n: nat)
    requires Sorted(times)
    ensures n <= |times| && Retained(times, cutoff) == times[n..]
    ensures (forall i :: 0 <= i < n ==> times[i] <= cutoff) && (forall i :: n <= i < |times| ==> times[i] > cutoff)
  {
    if times == [] {
      n := 0;
    } else if times[0] > cutoff {
      RetainsAll(times, cutoff);
      n := 0;
    } else {
      var m := RetainedIs(times[1..], cutoff);
      n := m + 1;
    }
  }

  lemma {:induction false} RetainsAll(times: seq<nat>, cutoff: nat)
    requires forall i :: 0 <= i < |times| ==> times[i] > cutoff
    ensures Retained(times, cutoff) == times
  {
    if times != [] {
      RetainsAll(times[1..], cutoff);
    }
  }

  /** Spaced times put at most `limit` into any window past zero. */
  lemma {:induction false} SpacedCounts(times: seq<nat>, limit: nat, window: nat, from: nat)
    requires Sorted(times) && Spaced(times, limit, window) && from > 0
    ensures CountIn(times, from, window) <= limit
    decreases |times|
  {
    if times != [] {
      if times[0] < from || times[0] >= from + window {
        TailSpaced(times, limit, window);
        SpacedCounts(times[1..], limit, window, from);
      } else {
        assert limit < |times| ==> Gap(times, 0, limit, window);
        CountBelow(times, from, window, limit);
      }
    }
  }

  lemma TailSpaced(times: seq<nat>, limit: nat, window: nat)
    requires times != [] && Sorted(times) && Spaced(times, limit, window)
    ensures Sorted(times[1..]) && Spaced(times[1..], limit, window)
  {
    var tail := times[1..];
    forall i | 0 <= i < |tail| - limit ensures Gap(tail, i, limit, window) {
      assert Gap(times, i + 1, limit, window);
    }
  }

  /** From the first time in the window on, those past the limit are out of it. */
  lemma CountBelow(times: seq<nat>, from: nat, window: nat, limit: nat)
    requires Sorted(times) && times != [] && from <= times[0]
    requires limit < |times| ==> times[0] + window <= times[limit]
    ensures CountIn(times, from, window) <= limit
  {
    if limit < |times| {
      CountFirst(times, from, window, limit);
    } else {
      CountAtMost(times, from, window);
    }
  }

  lemma {:induction false} CountAtMost(times: seq<nat>, from: nat, window: nat)
    ensures CountIn(times, from, window) <= |times|
  {
    if times != [] {
      CountAtMost(times[1..], from, window);
    }
  }

  lemma {:induction false} CountNone(times: seq<nat>, from: nat, window: nat)
    requires forall i :: 0 <= i < |times| ==> times[i] >= from + window
    ensures CountIn(times, from, window) == 0
  {
    if times != [] {
      CountNone(times[1..], from, window);
    }
  }

  lemma {:induction false} CountFirst(times: seq<nat>, from: nat, window: nat, n: nat)
    requires n < |times| && forall i :: n <= i < |times| ==> times[i] >= from + window
    ensures CountIn(times, from, window) <= n
  {
    if n == 0 {
      CountNone(times, from, window);
    } else {
      CountFirst(times[1..], from, window, n - 1);
    }
  }

  /** Dropping times that are past the cutoff anyway changes nothing. */
  lemma {:induction false} RetainedOfSuffix(times: seq<nat>, n: nat, cutoff: nat)
    requires n <= |times| && forall i :: 0 <= i < n ==> times[i] <= cutoff
    ensures Retained(times[n..], cutoff) == Retained(times, cutoff)
  {
    if n > 0 {
      RetainedOfSuffix(times[1..], n - 1, cutoff);
      assert times[1..][n - 1..] == times[n..];
    } else {
      assert times[0..] == times;
    }
  }

  /** The times let through so far: in order, spaced, and none after `now`. */
  ghost predicate History(times: seq<nat>, limit: nat, window: nat, now: nat) {
    Sorted(times) && Spaced(times, limit, window) && forall i :: 0 <= i < |times| ==> times[i] <= now
  }

  /** A time that no longer counts: a window ago, or at zero. */
  ghost predicate Past(time: nat, now: nat, window: nat) {
    time == 0 || time + window <= now
  }

  /** A request is let through when fewer than `limit` were within the window before it. */
  lemma JudgeMeans(times: seq<nat>, now: nat, limit: nat, window: nat) returns (m: nat)
    requires History(times, limit, window, now)
    ensures m <= |times| && Retained(times, Less0(now, window)) == times[m..] && |times| - m <= limit
    ensures forall i :: 0 <= i < m ==> Past(times[i], now, window)
    ensures forall i :: m <= i < |times| ==> !Past(times[i], now, window)
    ensures Judge(times, now, limit, window).Allowed? <==> |times| - m < limit
  {
    m := RetainedIs(times, Less0(now, window));
    assert m < |times| - limit ==> Gap(times, m, limit, window);
  }

  /** What was let through stays spaced when one more is. */
  lemma HistoryNext(times: seq<nat>, now: nat, limit: nat, window: nat, last: nat)
    requires History(times, limit, window, last) && last <= now
    requires Judge(times, now, limit, window).Allowed?
    ensures History(times + [now], limit, window, now)
  {
    var m := JudgeMeans(times, now, limit, window);
    var times' := times + [now];
    forall i | 0 <= i < |times'| - limit ensures Gap(times', i, limit, window) {
      if i < |times| - limit {
        assert Gap(times, i, limit, window);
      } else {
        assert Past(times[i], now, window);
      }
    }
  }

  /** A refused key that stays idle is let through after exactly the time it was told, and not before. */
  lemma RetryExact(times: seq<nat>, now: nat, limit: nat, window: nat, later: nat)
    requires History(times, limit, window, now) && now <= later
    requires Judge(times, now, limit, window).RetryAfter?
    ensures Judge(times, later, limit, window).Allowed? <==>
              limit > 0 && now + Judge(times, now, limit, window).seconds <= later
  {
    var m := JudgeMeans(times, now, limit, window);
    var m' := JudgeMeans(times, later, limit, window);
    assert m < |times| ==> times[m..][0] == times[m];
  }

  /** At time zero nothing is ever held against a request: the cutoff is zero too. */
  lemma ClockAtZero(times: seq<nat>, limit: nat, window: nat)
    requires limit > 0 && forall i :: 0 <= i < |times| ==> times[i] == 0
    ensures Judge(times, 0, limit, window).Allowed?
  {
    RetainsNone(times);
  }

  lemma {:induction false} RetainsNone(times: seq<nat>)
    requires forall i :: 0 <= i < |times| ==> times[i] == 0
    ensures Retained(times, 0) == []
  {
    if times != [] {
      RetainsNone(times[1..]);
    }
  }

  /** The list of a key has the requests let through but for some that are out of the window. */
  ghost predicate ListKeeps(list: seq<nat>, all: seq<nat>, limit: nat, window: nat, now: nat) {
    && History(all, limit, window, now) && |list| <= |all| && list == all[|all| - |list|..]
    && forall i :: 0 <= i < |all| - |list| ==> Past(all[i], now, window)
  }

  /** Judging by the list is judging by everything that was let through. */
  lemma ListNext(list: seq<nat>, all: seq<nat>, limit: nat, window: nat, last: nat, now: nat)
    requires ListKeeps(list, all, limit, window, last) && last <= now
    ensures var recent := Retained(list, Less0(now, window));
            && Judge(all, now, limit, window) == Judge(list, now, limit, window)
            && (|recent| >= limit ==> ListKeeps(recent, all, limit, window, now))
            && (|recent| < limit ==> ListKeeps(recent + [now], all + [now], limit, window, now))
  {
    hide Spaced, Sorted, Retained;
    RetainedOfSuffix(all, |all| - |list|, Less0(now, window));
    var m := JudgeMeans(all, now, limit, window);
    if |all| - m < limit {
      HistoryNext(all, now, limit, window, last);
    }
  }

  function ListOf(records: map<string, seq<nat>>, key: string): seq<nat> {
    if key in records then records[key] else []
  }

  class RateLimiter {
    var records: map<string, seq<nat>>

    constructor ()
      ensures records == map[]
    {
      records := map[];
    }

    method CheckRateLimit(key: string, limit: nat, window: nat, now: nat) returns (r: Verdict)
      modifies this
      ensures r == Judge(ListOf(old(records), key), now, limit, window)
      ensures var recent := Retained(ListOf(old(records), key), Less0(now, window));
              records == old(records)[key := if r.Allowed? then recent + [now] else recent]
    {
      hide Retained;
      var timestamps := ListOf(records, key);
      timestamps := Retained(timestamps, Less0(now, window));
      if |timestamps| >= limit {
        var oldest := First(timestamps, now);
        r := RetryAfter(Max(Less0(oldest + window, now), 1));
      } else {
        timestamps := timestamps + [now];
        r := Allowed;
      }
      records := records[key := timestamps];
    }
  }

  // ----- Whole runs

  datatype Query = Query(key: string, now: nat)

  /** What is allowed to a key. */
  datatype Rule = Rule(limit: nat, window: nat)

  /** The times at which a key was let through, each judged by all those before it. */
  function LetThrough(queries: seq<Query>, rules: string -> Rule, key: string): seq<nat> {
    if queries == [] then [] else
      var before, q := LetThrough(queries[..|queries| - 1], rules, key), queries[|queries| - 1];
      if q.key == key && Judge(before, q.now, rules(key).limit, rules(key).window).Allowed? then before + [q.now]
      else before
  }

  /** The clock does not run backwards. */
  ghost predicate Clocked(queries: seq<Query>) {
    forall i, j :: 0 <= i <= j < |queries| ==> queries[i].now <= queries[j].now
  }

  ghost function Last(queries: seq<Query>): nat {
    if queries == [] then 0 else queries[|queries| - 1].now
  }

  lemma ThroughNext(queries: seq<Query>, rules: string -> Rule, key: string, q: Query)
    ensures var before := LetThrough(queries, rules, key);
            LetThrough(queries + [q], rules, key)
            == if q.key == key && Judge(before, q.now, rules(key).limit, rules(key).window).Allowed?
               then before + [q.now]
               else before
  {
    assert (queries + [q])[..|queries|] == queries;
  }

  /** Whatever other keys do, what a key is let through stays spaced. */
  lemma {:induction false} ThroughSpaced(queries: seq<Query>, rules: string -> Rule, key: string)
    requires Clocked(queries)
    ensures History(LetThrough(queries, rules, key), rules(key).limit, rules(key).window, Last(queries))
    decreases |queries|
  {
    if queries != [] {
      var front, q := queries[..|queries| - 1], queries[|queries| - 1];
      ThroughSpaced(front, rules, key);
      var before := LetThrough(front, rules, key);
      if q.key == key && Judge(before, q.now, rules(key).limit, rules(key).window).Allowed? {
        HistoryNext(before, q.now, rules(key).limit, rules(key).window, Last(front));
      }
    }
  }

  /** No window past zero, wherever it starts, holds more requests of a key than its limit. */
  lemma NoFlood(queries: seq<Query>, rules: string -> Rule, key: string, from: nat)
    requires Clocked(queries) && from > 0
    ensures CountIn(LetThrough(queries, rules, key), from, rules(key).window) <= rules(key).limit
  {
    ThroughSpaced(queries, rules, key);
    SpacedCounts(LetThrough(queries, rules, key), rules(key).limit, rules(key).window, from);
  }

  function Of(queries: seq<Query>, key: string): seq<Query> {
    if queries == [] then [] else
      var q := queries[|queries| - 1];
      Of(queries[..|queries| - 1], key) + if q.key == key then [q] else []
  }

  /** A key is let through as if it were alone. */
  lemma {:induction false} KeysApart(queries: seq<Query>, rules: string -> Rule, key: string)
    ensures LetThrough(queries, rules, key) == LetThrough(Of(queries, key), rules, key)
    decreases |queries|
  {
    if queries != [] {
      var front, q := queries[..|queries| - 1], queries[|queries| - 1];
      KeysApart(front, rules, key);
      ThroughNext(Of(front, key), rules, key, q);
      assert q.key != key ==> Of(front, key) + [] == Of(front, key);
    }
  }

  ghost function AnswerTo(queries: seq<Query>, rules: string -> Rule, i: nat): Verdict
    requires i < |queries|
  {
    var q := queries[i];
    Judge(LetThrough(queries[..i], rules, q.key), q.now, rules(q.key).limit, rules(q.key).window)
  }

  /** The lists hold, of what was let through, all that still counts. */
  ghost predicate Keeps(records: map<string, seq<nat>>, queries: seq<Query>, rules: string -> Rule) {
    forall key :: KeepsKey(records, queries, rules, key)
  }

  ghost predicate KeepsKey(records: map<string, seq<nat>>, queries: seq<Query>, rules: string -> Rule, key: string) {
    ListKeeps(ListOf(records, key), LetThrough(queries, rules, key), rules(key).limit, rules(key).window, Last(queries))
  }

  /** Time alone does not change what a list keeps. */
  lemma KeepsOthers(records: map<string, seq<nat>>, queries: seq<Query>, rules: string -> Rule, key: string, now: nat)
    requires Keeps(records, queries, rules) && Last(queries) <= now
    ensures ListKeeps(ListOf(records, key), LetThrough(queries, rules, key), rules(key).limit, rules(key).window, now)
  {
    hide LetThrough, Sorted, Spaced;
    assert KeepsKey(records, queries, rules, key);
  }

  /** The key that is asked about. */
  lemma KeepsAsked(list: seq<nat>, queries: seq<Query>, rules: string -> Rule, q: Query, recent: seq<nat>, r: Verdict)
    requires ListKeeps(list, LetThrough(queries, rules, q.key), rules(q.key).limit, rules(q.key).window, Last(queries))
    requires Last(queries) <= q.now && recent == Retained(list, Less0(q.now, rules(q.key).window))
    requires r == Judge(list, q.now, rules(q.key).limit, rules(q.key).window)
    ensures r == Judge(LetThrough(queries, rules, q.key), q.now, rules(q.key).limit, rules(q.key).window)
    ensures ListKeeps(if r.Allowed? then recent + [q.now] else recent, LetThrough(queries + [q], rules, q.key),
                      rules(q.key).limit, rules(q.key).window, q.now)
  {
    ListNext(list, LetThrough(queries, rules, q.key), rules(q.key).limit, rules(q.key).window, Last(queries), q.now);
    ThroughNext(queries, rules, q.key, q);
    assert Judge(list, q.now, rules(q.key).limit, rules(q.key).window).Allowed? <==> |recent| < rules(q.key).limit;
    hide LetThrough, ListKeeps, Retained, Judge;
  }

  lemma KeepsNext(records: map<string, seq<nat>>, queries: seq<Query>, rules: string -> Rule, q: Query,
                  recent: seq<nat>, r: Verdict)
    requires Keeps(records, queries, rules) && Last(queries) <= q.now
    requires recent == Retained(ListOf(records, q.key), Less0(q.now, rules(q.key).window))
    requires r == Judge(ListOf(records, q.key), q.now, rules(q.key).limit, rules(q.key).window)
    ensures r == Judge(LetThrough(queries, rules, q.key), q.now, rules(q.key).limit, rules(q.key).window)
    ensures Keeps(records[q.key := if r.Allowed? then recent + [q.now] else recent], queries + [q], rules)
  {
    var records' := records[q.key := if r.Allowed? then recent + [q.now] else recent];
    hide Judge, Retained, ListKeeps, LetThrough;
    KeepsOthers(records, queries, rules, q.key, Last(queries));
    KeepsAsked(ListOf(records, q.key), queries, rules, q, recent, r);
    forall key ensures KeepsKey(records', queries + [q], rules, key) {
      ThroughNext(queries, rules, key, q);
      if key != q.key {
        KeepsOthers(records, queries, rules, key, q.now);
      }
    }
  }

  lemma NothingYet(rules: string -> Rule)
    ensures Keeps(map[], [], rules)
  {
    forall key ensures KeepsKey(map[], [], rules, key) {
    }
  }

  /** Requests of any keys, interleaved in any way, against a new limiter. */
  method Serve(queries: seq<Query>, rules: string -> Rule) returns (answers: seq<Verdict>)
    requires Clocked(queries)
    ensures |answers| == |queries|
    ensures forall i :: 0 <= i < |answers| ==> answers[i] == AnswerTo(queries, rules, i)
  {
    hide Judge, Keeps;
    var limiter := new RateLimiter();
    NothingYet(rules);
    answers := [];
    var i := 0;
    while i < |queries|
      invariant 0 <= i <= |queries| && |answers| == i
      invariant fresh(limiter) && Keeps(limiter.records, queries[..i], rules)
      invariant forall j :: 0 <= j < i ==> answers[j] == AnswerTo(queries, rules, j)
    {
      var q := queries[i];
      ghost var records := limiter.records;
      ghost var recent := Retained(ListOf(limiter.records, q.key), Less0(q.now, rules(q.key).window));
      var r := limiter.CheckRateLimit(q.key, rules(q.key).limit, rules(q.key).window, q.now);
      KeepsNext(records, queries[..i], rules, q, recent, r);
      assert queries[..i] + [q] == queries[..i + 1];
      answers := answers + [r];
      i := i + 1;
    }
  }
}
