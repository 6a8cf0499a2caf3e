/** The fixed-window limiter: how many calls of a user any stretch of time lets through. */
module RateLimiter {
  import opened Wrappers
  import opened TableSums

  /** A user's window: when it began and the calls it has let through. */
  datatype Window = Window(start: real, count: nat)

  datatype Answer = Answer(allowed: bool, retryAfter: real)

  function AllowStep(row: Option<Window>, now: real, maxCalls: int, seconds: real): (Answer, Option<Window>) {
    var stored := if row.Some? then row.value else Window(now, 0);
    var w := if now - stored.start >= seconds then Window(now, 0) else stored;
    if w.count >= maxCalls then
      var wait := w.start + seconds - now;
      (Answer(false, if wait > 0.0 then wait else 0.0), row)
    else (Answer(true, 0.0), Some(Window(w.start, w.count + 1)))
  }

  function RowOf(rows: map<string, Window>, user: string): Option<Window> {
    if user in rows then Some(rows[user]) else None
  }

  class Limiter {
    const maxCalls: int
    const seconds: real
    var rows: map<string, Window>

    constructor (maxCalls: int, seconds: real)
      ensures this.maxCalls == maxCalls && this.seconds == seconds && rows == map[]
    {
      this.maxCalls, this.seconds, rows := maxCalls, seconds, map[];
    }

    /** One call of a user, in one transaction. */
    method Allow(user: string, now: real) returns (answer: Answer)
      modifies this
      ensures var (expected, row) := AllowStep(RowOf(old(rows), user), now, maxCalls, seconds);
              && answer == expected
              && rows == if row.Some? then old(rows)[user := row.value] else old(rows)
    {
      var start, count := now, 0;
      if user in rows {
        start, count := rows[user].start, rows[user].count;
      }
      if now - start >= seconds {
        start, count := now, 0;
      }
      if count >= maxCalls {
        var wait := start + seconds - now;
        answer := Answer(false, if wait > 0.0 then wait else 0.0);
        assert user in rows ==> rows == rows[user := rows[user]];
        return;
      }
      rows := rows[user := Window(start, count + 1)];
      answer := Answer(true, 0.0);
    }
  }

  // ----- Runs -----

  /** A call let through: its time, the start of its window and its rank in it. */
  datatype Entry = Entry(time: real, start: real, rank: nat)

  datatype History = History(row: Option<Window>, log: seq<Entry>)

  /** The calls of one user, at the given times. */
  function Run(times: seq<real>, maxCalls: int, seconds: real): History {
    if times == [] then History(None, [])
    else
      var before := Run(times[..|times| - 1], maxCalls, seconds);
      var now := times[|times| - 1];
      var (answer, row) := AllowStep(before.row, now, maxCalls, seconds);
      History(row, if answer.allowed && row.Some? then before.log + [Entry(now, row.value.start, row.value.count)]
                   else before.log)
  }

  predicate Nondecreasing(times: seq<real>) {
    forall i, j :: 0 <= i <= j < |times| ==> times[i] <= times[j]
  }

  /** The log as windows of ranked calls that begin at least `seconds` apart. */
  predicate Ranked(log: seq<Entry>, maxCalls: int, seconds: real) {
    && (forall i :: 0 <= i < |log| ==>
          && log[i].start <= log[i].time < log[i].start + seconds
          && 1 <= log[i].rank <= maxCalls
          && (log[i].rank == 1 ==> log[i].time == log[i].start))
    && (forall i, j :: 0 <= i < j < |log| ==> Precedes(log[i], log[j], seconds))
  }

  /** A call is later than another, with a higher rank in its window or in a later window. */
  predicate Precedes(a: Entry, b: Entry, seconds: real) {
    && a.time <= b.time
    && ((a.start == b.start && a.rank < b.rank) || a.start + seconds <= b.start)
  }

  predicate RowMatches(h: History, now: real) {
    match h.row
    case None => h.log == []
    case Some(w) =>
      && h.log != []
      && var last := h.log[|h.log| - 1];
         last.start == w.start && last.rank == w.count && last.time <= now
  }

  /** A call let through by the row that matches the log extends the log. */
  lemma RankedAppend(log: seq<Entry>, e: Entry, maxCalls: int, seconds: real)
    requires Ranked(log, maxCalls, seconds)
    requires e.start <= e.time < e.start + seconds && 1 <= e.rank <= maxCalls && (e.rank == 1 ==> e.time == e.start)
    requires log != [] ==> Precedes(log[|log| - 1], e, seconds)
    requires seconds > 0.0
    ensures Ranked(log + [e], maxCalls, seconds)
  {
    forall i | 0 <= i < |log|
      ensures Precedes(log[i], e, seconds)
    {
      if i < |log| - 1 {
        assert Precedes(log[i], log[|log| - 1], seconds);
      }
    }
  }

  lemma AllowedEntry(before: History, time: real, now: real, maxCalls: int, seconds: real)
    requires Ranked(before.log, maxCalls, seconds) && RowMatches(before, time) && seconds > 0.0 && time <= now
    ensures var (answer, row) := AllowStep(before.row, time, maxCalls, seconds);
            var log := if answer.allowed && row.Some? then before.log + [Entry(time, row.value.start, row.value.count)]
                       else before.log;
            Ranked(log, maxCalls, seconds) && RowMatches(History(row, log), now)
  {
    var (answer, row) := AllowStep(before.row, time, maxCalls, seconds);
    if answer.allowed {
      RankedAppend(before.log, Entry(time, row.value.start, row.value.count), maxCalls, seconds);
    }
  }

  lemma {:induction false} RunRanked(times: seq<real>, maxCalls: int, seconds: real, now: real)
    requires Nondecreasing(times) && seconds > 0.0
    requires times != [] ==> times[|times| - 1] <= now
    ensures var h := Run(times, maxCalls, seconds);
            Ranked(h.log, maxCalls, seconds) && RowMatches(h, now)
  {
    if times == [] {
    } else {
      var init, time := times[..|times| - 1], times[|times| - 1];
      RunRanked(init, maxCalls, seconds, time);
      AllowedEntry(Run(init, maxCalls, seconds), time, now, maxCalls, seconds);
    }
  }

  lemma {:induction false} RankGap(log: seq<Entry>, maxCalls: int, seconds: real, i: nat, j: nat)
    requires Ranked(log, maxCalls, seconds) && seconds > 0.0 && i <= j < |log| && log[i].start == log[j].start
    ensures log[j].rank - log[i].rank >= j - i
    decreases j
  {
    if i == j {
    } else {
      assert log[j - 1].start == log[j].start;
      RankGap(log, maxCalls, seconds, i, j - 1);
    }
  }

  /** Where the window of entry `a` ends before `b`. */
  lemma {:induction false} WindowEnd(log: seq<Entry>, maxCalls: int, seconds: real, a: nat, b: nat) returns (m: nat)
    requires Ranked(log, maxCalls, seconds) && a < b < |log| && log[a].start != log[b].start
    ensures a <= m < b && log[m].start == log[a].start && log[m + 1].start != log[a].start
    decreases b
  {
    if log[b - 1].start == log[a].start {
      m := b - 1;
    } else {
      m := WindowEnd(log, maxCalls, seconds, a, b - 1);
    }
  }

  /** Calls less than `seconds` apart span two windows at most, and of the first window not its opening call. */
  lemma SpanBound(log: seq<Entry>, maxCalls: int, seconds: real, a: nat, b: nat)
    requires Ranked(log, maxCalls, seconds) && seconds > 0.0 && a <= b < |log|
    requires log[b].time < log[a].time + seconds
    ensures b - a + 1 <= 2 * maxCalls - 1
  {
    if log[a].start == log[b].start {
      RankGap(log, maxCalls, seconds, a, b);
    } else {
      var m := WindowEnd(log, maxCalls, seconds, a, b);
      RankGap(log, maxCalls, seconds, a, m);
      assert log[m + 1].start == log[b].start;
      RankGap(log, maxCalls, seconds, m + 1, b);
      assert log[a].rank >= 2;
    }
  }

  /** The indices of the calls let through in the half-open interval of length `seconds` from `from`. */
  function Inside(log: seq<Entry>, from: real, seconds: real): set<nat> {
    set i: nat | i < |log| && from <= log[i].time < from + seconds
  }

  lemma {:induction false} RangeSize(s: set<nat>, a: nat, b: nat)
    requires forall i :: i in s ==> a <= i < b
    ensures a <= b ==> |s| <= b - a
    ensures b <= a ==> s == {}
    decreases b
  {
    if s == {} {
    } else {
      var i :| i in s;
      RangeSize(s - {b - 1}, a, b - 1);
      if b - 1 in s {
        assert s == (s - {b - 1}) + {b - 1};
      } else {
        assert s - {b - 1} == s;
      }
    }
  }

  lemma LeastAndGreatest(s: set<nat>, bound: nat) returns (a: nat, b: nat)
    requires s != {} && forall i :: i in s ==> i < bound
    ensures a in s && b in s && forall i :: i in s ==> a <= i <= b
    decreases bound
  {
    var rest := s - {bound - 1};
    if rest == {} {
      var i :| i in s;
      assert s == {bound - 1};
      a, b := bound - 1, bound - 1;
    } else {
      a, b := LeastAndGreatest(rest, bound - 1);
      assert forall i :: i in s ==> i == bound - 1 || i in rest;
      if bound - 1 in s {
        b := bound - 1;
      }
    }
  }

  /**
   With a clock that never goes back, any half-open interval as long as the window lets through at most
   twice the limit less one call of a user; none if the limit is not positive.
   */
  lemma AtMostTwiceTheLimit(times: seq<real>, maxCalls: int, seconds: real, from: real)
    requires Nondecreasing(times) && seconds > 0.0
    ensures |Inside(Run(times, maxCalls, seconds).log, from, seconds)| <= if maxCalls > 0 then 2 * maxCalls - 1 else 0
  {
    RunRanked(times, maxCalls, seconds, if times == [] then 0.0 else times[|times| - 1]);
    var log := Run(times, maxCalls, seconds).log;
    var inside := Inside(log, from, seconds);
    if inside != {} {
      var a, b := LeastAndGreatest(inside, |log|);
      SpanBound(log, maxCalls, seconds, a, b);
      RangeSize(inside, a, b + 1);
    }
  }

  // ----- The bound is reached -----

  function Repeat(time: real, n: nat): seq<real> {
    seq(n, i => time)
  }

  /** One call at 0, then the rest of the first window, then a full second window. */
  function Burst(limit: nat, seconds: real): seq<real>
    requires limit > 0
  {
    [0.0] + Repeat(seconds / 2.0, limit - 1) + Repeat(seconds, limit)
  }

  /** The log with `n` more calls let through at the given time. */
  predicate Grown(log: seq<Entry>, more: seq<Entry>, time: real, n: nat) {
    && |more| == |log| + n
    && (forall i :: 0 <= i < |log| ==> more[i] == log[i])
    && (forall i :: |log| <= i < |more| ==> more[i].time == time)
  }

  lemma GrownTwice(a: seq<Entry>, b: seq<Entry>, c: seq<Entry>, time: real, m: nat, n: nat)
    requires Grown(a, b, time, m) && Grown(b, c, time, n)
    ensures Grown(a, c, time, m + n)
  {
  }

  lemma {:induction false} Repeated(times: seq<real>, time: real, n: nat, limit: nat, seconds: real)
    requires var h := Run(times, limit, seconds);
             h.row.Some? && time < h.row.value.start + seconds && h.row.value.count + n <= limit
    ensures var h, after := Run(times, limit, seconds), Run(times + Repeat(time, n), limit, seconds);
            && after.row == Some(Window(h.row.value.start, h.row.value.count + n))
            && Grown(h.log, after.log, time, n)
  {
    if n == 0 {
      assert times + Repeat(time, n) == times;
    } else {
      var before := times + Repeat(time, n - 1);
      Repeated(times, time, n - 1, limit, seconds);
      OneGrown(before, time, limit, seconds);
      assert times + Repeat(time, n) == before + [time] by {
        RepeatEnds(times, time, n);
      }
      GrownTwice(Run(times, limit, seconds).log, Run(before, limit, seconds).log,
                 Run(before + [time], limit, seconds).log, time, n - 1, 1);
    }
  }

  lemma RepeatEnds(times: seq<real>, time: real, n: nat)
    requires n > 0
    ensures times + Repeat(time, n) == times + Repeat(time, n - 1) + [time]
  {
  }

  lemma OneMore(times: seq<real>, time: real, limit: nat, seconds: real)
    requires var h := Run(times, limit, seconds);
             h.row.Some? && time < h.row.value.start + seconds && h.row.value.count < limit
    ensures var h := Run(times, limit, seconds);
            var w := Window(h.row.value.start, h.row.value.count + 1);
            Run(times + [time], limit, seconds) == History(Some(w), h.log + [Entry(time, w.start, w.count)])
  {
    assert (times + [time])[..|times|] == times;
  }

  lemma OneGrown(times: seq<real>, time: real, limit: nat, seconds: real)
    requires var h := Run(times, limit, seconds);
             h.row.Some? && time < h.row.value.start + seconds && h.row.value.count < limit
    ensures var h, after := Run(times, limit, seconds), Run(times + [time], limit, seconds);
            && after.row == Some(Window(h.row.value.start, h.row.value.count + 1))
            && Grown(h.log, after.log, time, 1)
  {
    OneMore(times, time, limit, seconds);
  }

  lemma {:induction false} AllInside(log: seq<Entry>, from: real, seconds: real)
    requires log != [] && log[0].time < from
    requires forall i :: 1 <= i < |log| ==> from <= log[i].time < from + seconds
    ensures |Inside(log, from, seconds)| == |log| - 1
  {
    if |log| == 1 {
      assert Inside(log, from, seconds) == {};
    } else {
      var init := log[..|log| - 1];
      AllInside(init, from, seconds);
      assert Inside(log, from, seconds) == Inside(init, from, seconds) + {|log| - 1};
    }
  }

  lemma SecondWindow(times: seq<real>, limit: nat, seconds: real)
    requires limit > 0 && seconds > 0.0
    requires Run(times, limit, seconds).row == Some(Window(0.0, limit))
    ensures Grown(Run(times, limit, seconds).log, Run(times + Repeat(seconds, limit), limit, seconds).log, seconds,
                  limit)
  {
    var third := times + [seconds];
    OpensWindow(times, limit, seconds);
    Repeated(third, seconds, limit - 1, limit, seconds);
    var all := times + Repeat(seconds, limit);
    RepeatSplits(times, seconds, limit);
    GrownTwice(Run(times, limit, seconds).log, Run(third, limit, seconds).log, Run(all, limit, seconds).log,
               seconds, 1, limit - 1);
  }

  lemma RepeatSplits(times: seq<real>, time: real, n: nat)
    requires n > 0
    ensures times + [time] + Repeat(time, n - 1) == times + Repeat(time, n)
  {
  }

  lemma OpensWindow(times: seq<real>, limit: nat, seconds: real)
    requires limit > 0 && Run(times, limit, seconds).row == Some(Window(0.0, limit))
    ensures var h := Run(times, limit, seconds);
            Run(times + [seconds], limit, seconds) ==
              History(Some(Window(seconds, 1)), h.log + [Entry(seconds, seconds, 1)])
  {
    assert (times + [seconds])[..|times|] == times;
  }

  /** The bound is reached for every positive limit. */
  lemma BoundReached(limit: nat, seconds: real)
    requires limit > 0 && seconds > 0.0
    ensures Nondecreasing(Burst(limit, seconds))
    ensures |Inside(Run(Burst(limit, seconds), limit, seconds).log, seconds / 2.0, seconds)| == 2 * limit - 1
  {
    var first := [0.0];
    assert first[..0] == [];
    assert Run(first, limit, seconds) == History(Some(Window(0.0, 1)), [Entry(0.0, 0.0, 1)]);
    var second := first + Repeat(seconds / 2.0, limit - 1);
    Repeated(first, seconds / 2.0, limit - 1, limit, seconds);
    SecondWindow(second, limit, seconds);
    var h, log := Run(second, limit, seconds), Run(Burst(limit, seconds), limit, seconds).log;
    AllInside(log, seconds / 2.0, seconds);
  }

  // ----- Denials -----

  /** A denied user's next call, if no other intervenes, is let through exactly from `now + retryAfter` on. */
  lemma RetryIsExact(row: Option<Window>, now: real, maxCalls: int, seconds: real, next: real)
    requires maxCalls > 0 && seconds > 0.0 && now <= next
    requires !AllowStep(row, now, maxCalls, seconds).0.allowed
    ensures var (answer, after) := AllowStep(row, now, maxCalls, seconds);
            after == row && answer.retryAfter > 0.0
            && (AllowStep(after, next, maxCalls, seconds).0.allowed <==> next >= now + answer.retryAfter)
  {
  }

  // ----- Users -----

  datatype Call = Call(user: string, time: real)

  function RunTable(calls: seq<Call>, maxCalls: int, seconds: real): map<string, Window> {
    if calls == [] then map[]
    else
      var rows := RunTable(calls[..|calls| - 1], maxCalls, seconds);
      var call := calls[|calls| - 1];
      var row := AllowStep(RowOf(rows, call.user), call.time, maxCalls, seconds).1;
      if row.Some? then rows[call.user := row.value] else rows
  }

  function TimesOf(calls: seq<Call>, user: string): seq<real> {
    if calls == [] then []
    else
      var last := calls[|calls| - 1];
      TimesOf(calls[..|calls| - 1], user) + if last.user == user then [last.time] else []
  }

  /** Each user's row is what the user's own calls make it. */
  lemma {:induction false} UsersApart(calls: seq<Call>, maxCalls: int, seconds: real, user: string)
    ensures RowOf(RunTable(calls, maxCalls, seconds), user) == Run(TimesOf(calls, user), maxCalls, seconds).row
  {
    if calls == [] {
    } else {
      var init, last := calls[..|calls| - 1], calls[|calls| - 1];
      UsersApart(init, maxCalls, seconds, user);
      var times := TimesOf(calls, user);
      if last.user == user {
        assert times[..|times| - 1] == TimesOf(init, user);
      } else {
        assert times == TimesOf(init, user);
      }
    }
  }

  /** The i-th call is let through. */
  predicate LetThrough(calls: seq<Call>, maxCalls: int, seconds: real, i: nat)
    requires i < |calls|
  {
    AllowStep(RowOf(RunTable(calls[..i], maxCalls, seconds), calls[i].user), calls[i].time, maxCalls, seconds).0.allowed
  }

  /** The calls of a user let through in the half-open interval of length `seconds` from `from`. */
  function Passed(calls: seq<Call>, maxCalls: int, seconds: real, user: string, from: real): set<nat> {
    set i: nat | i < |calls| && calls[i].user == user && from <= calls[i].time < from + seconds
                 && LetThrough(calls, maxCalls, seconds, i)
  }

  function LogOf(calls: seq<Call>, maxCalls: int, seconds: real, user: string): seq<Entry> {
    Run(TimesOf(calls, user), maxCalls, seconds).log
  }

  /** One more call extends only its own user's log, and that only if it is let through. */
  lemma LogStep(calls: seq<Call>, last: Call, maxCalls: int, seconds: real, user: string)
    ensures var before, after := LogOf(calls, maxCalls, seconds, user), LogOf(calls + [last], maxCalls, seconds, user);
            var answer :=
              AllowStep(RowOf(RunTable(calls, maxCalls, seconds), last.user), last.time, maxCalls, seconds).0;
            if user == last.user && answer.allowed then
              |after| == |before| + 1 && after[..|before|] == before && after[|before|].time == last.time
            else after == before
  {
    var more := calls + [last];
    assert more[..|more| - 1] == calls;
    var times := TimesOf(more, user);
    if user == last.user {
      UsersApart(calls, maxCalls, seconds, user);
      assert times[..|times| - 1] == TimesOf(calls, user);
    } else {
      assert times == TimesOf(calls, user);
    }
  }

  /** A call let through stands in its user's log after those before it. */
  lemma {:induction false} PassedInLog(calls: seq<Call>, maxCalls: int, seconds: real, i: nat)
    requires i < |calls| && LetThrough(calls, maxCalls, seconds, i)
    ensures var place, log :=
            |LogOf(calls[..i], maxCalls, seconds, calls[i].user)|, LogOf(calls, maxCalls, seconds, calls[i].user);
            place < |log| && log[place].time == calls[i].time
  {
    var init, last := calls[..|calls| - 1], calls[|calls| - 1];
    assert calls == init + [last];
    LogStep(init, last, maxCalls, seconds, calls[i].user);
    if i == |calls| - 1 {
      assert calls[..i] == init;
    } else {
      assert init[..i] == calls[..i];
      PassedInLog(init, maxCalls, seconds, i);
    }
  }

  lemma PlacesApart(calls: seq<Call>, maxCalls: int, seconds: real, i: nat, j: nat)
    requires i < j < |calls| && calls[i].user == calls[j].user && LetThrough(calls, maxCalls, seconds, i)
    ensures |LogOf(calls[..i], maxCalls, seconds, calls[i].user)| <
            |LogOf(calls[..j], maxCalls, seconds, calls[i].user)|
  {
    assert calls[..j][..i] == calls[..i];
    PassedInLog(calls[..j], maxCalls, seconds, i);
  }

  lemma {:induction false} TimesRise(calls: seq<Call>, user: string)
    requires forall i, j :: 0 <= i <= j < |calls| ==> calls[i].time <= calls[j].time
    ensures Nondecreasing(TimesOf(calls, user))
    ensures forall i :: 0 <= i < |TimesOf(calls, user)| ==>
              calls != [] && TimesOf(calls, user)[i] <= calls[|calls| - 1].time
  {
    if calls == [] {
    } else {
      TimesRise(calls[..|calls| - 1], user);
    }
  }

  /**
   However the calls of any number of users are mixed, with a clock that never goes back any half-open
   interval as long as the window lets through at most twice the limit less one call of each user.
   */
  lemma AtMostTwiceTheLimitEach(calls: seq<Call>, maxCalls: int, seconds: real, user: string, from: real)
    requires (forall i, j :: 0 <= i <= j < |calls| ==> calls[i].time <= calls[j].time) && seconds > 0.0
    ensures |Passed(calls, maxCalls, seconds, user, from)| <= if maxCalls > 0 then 2 * maxCalls - 1 else 0
  {
    var passed, log := Passed(calls, maxCalls, seconds, user, from), LogOf(calls, maxCalls, seconds, user);
    var place := map i | i in passed :: |LogOf(calls[..i], maxCalls, seconds, user)|;
    forall i | i in place
      ensures place[i] in Inside(log, from, seconds)
    {
      PassedInLog(calls, maxCalls, seconds, i);
    }
    forall i, j | i in place && j in place && place[i] == place[j]
      ensures i == j
    {
      if i < j {
        PlacesApart(calls, maxCalls, seconds, i, j);
      } else if j < i {
        PlacesApart(calls, maxCalls, seconds, j, i);
      }
    }
    InjectionBound(place, Inside(log, from, seconds));
    assert place.Keys == passed;
    TimesRise(calls, user);
    AtMostTwiceTheLimit(TimesOf(calls, user), maxCalls, seconds, from);
  }

  // ----- One call -----

  /**
   A call is let through if its window, which begins with it after the previous one has run out, has let fewer
   calls through than the limit; if not, the row stays, and the wait is what is left of the window.
   */
  lemma AllowDecides(row: Option<Window>, now: real, maxCalls: int, seconds: real)
    ensures var (answer, after) := AllowStep(row, now, maxCalls, seconds);
            var opens := row.None? || now >= row.value.start + seconds;
            var used, start := if opens then 0 else row.value.count, if opens then now else row.value.start;
            && (answer.allowed <==> used < maxCalls)
            && (answer.allowed ==> answer.retryAfter == 0.0 && after == Some(Window(start, used + 1)))
            && (!answer.allowed ==> after == row)
            && (!answer.allowed && now <= start + seconds ==> answer.retryAfter == start + seconds - now)
            && (!answer.allowed && now > start + seconds ==> answer.retryAfter == 0.0)
  {
  }
}
