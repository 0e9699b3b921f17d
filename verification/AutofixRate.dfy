// The hourly limit on autofix authorizations of one repository: a window of
// timestamps that every check compacts in place (agents_authz.go).
module AutofixRate {
  import opened Text
  import opened Sets

  const HOUR: int := 3_600_000_000_000   // nanoseconds

  function RateMax(configured: int): (n: int)
    ensures 1 <= n <= 30
  {
    if configured < 1 then 1 else if configured > 30 then 30 else configured
  }

  /** The timestamps strictly after the cutoff, in order. */
  function After(s: seq<int>, cutoff: int): seq<int> {
    if s == [] then []
    else After(s[..|s| - 1], cutoff) + (if s[|s| - 1] > cutoff then [s[|s| - 1]] else [])
  }

  lemma {:induction false} AfterSnoc(s: seq<int>, t: int, cutoff: int)
    ensures After(s + [t], cutoff) == After(s, cutoff) + (if t > cutoff then [t] else [])
  {
    assert (s + [t])[..|s|] == s;
  }

  /** Pruning twice is pruning once, by the later cutoff. */
  lemma {:induction false} PruneTwice(s: seq<int>, early: int, late: int)
    requires early <= late
    ensures After(After(s, early), late) == After(s, late)
    decreases |s|
  {
    if s != [] {
      var front, t := s[..|s| - 1], s[|s| - 1];
      PruneTwice(front, early, late);
      AfterSnoc(After(front, early), t, late);
      assert After(front, early) + [] == After(front, early);
    }
  }

  predicate Sorted(s: seq<int>) {
    forall i, j :: 0 <= i < j < |s| ==> s[i] <= s[j]
  }

  /** In a sorted list the timestamps after a cutoff are its tail. */
  lemma {:induction false} AfterIsTail(s: seq<int>, cutoff: int)
    requires Sorted(s)
    ensures |After(s, cutoff)| <= |s|
    ensures forall i :: 0 <= i < |s| ==> (s[i] > cutoff <==> i >= |s| - |After(s, cutoff)|)
    decreases |s|
  {
    if s != [] {
      AfterIsTail(s[..|s| - 1], cutoff);
    }
  }

  // ----- The window -----

  class Window {
    var times: array<int>
    var len: nat
    ghost var history: seq<int>   // every recorded authorization
    ghost var last: int           // the clock at the last check or record

    constructor (now: int)
      ensures Valid() && fresh(times) && history == [] && last == now
    {
      times := new int[0];
      len, history, last := 0, [], now;
    }

    ghost predicate Valid()
      reads this, times
    {
      && len <= times.Length
      && forall cutoff :: cutoff >= last - HOUR ==> After(Contents(), cutoff) == After(history, cutoff)
    }

    ghost function Contents(): seq<int>
      requires len <= times.Length
      reads this, times
    {
      times[..len]
    }

    method Keep(at: nat, t: int)
      requires at < times.Length
      modifies times
      ensures times[..at + 1] == old(times[..at]) + [t]
      ensures forall k :: at < k < times.Length ==> times[k] == old(times[k])
    {
      ghost var front := times[..at];
      times[at] := t;
      assert times[..at] == front;
    }

    /** Keeps what is after the cutoff, writing it to the front of the array. */
    method Compact(cutoff: int)
      requires len <= times.Length
      modifies this`len, times
      ensures len <= times.Length && Contents() == After(old(Contents()), cutoff)
    {
      ghost var was, done, front: seq<int> := times[..len], [], [];
      var kept := 0;
      for i := 0 to len
        invariant kept <= i && len == |was| && len <= times.Length && done == was[..i]
        invariant times[..kept] == front && front == After(done, cutoff)
        invariant forall k :: i <= k < len ==> times[k] == was[k]
      {
        var t := times[i];
        TakeSnoc(was, i);
        AfterSnoc(done, t, cutoff);
        done := done + [t];
        if t > cutoff {
          Keep(kept, t);
          kept := kept + 1;
          front := front + [t];
        }
      }
      TakeAll(was);
      len := kept;
    }

    method CheckRateLimit(now: int, max: nat) returns (ok: bool)
      requires Valid() && last <= now
      modifies this`len, this`last, times
      ensures Valid() && last == now
      ensures Contents() == After(history, now - HOUR)
      ensures ok <==> |After(history, now - HOUR)| < max
    {
      ghost var was := Contents();
      Compact(now - HOUR);
      last := now;
      forall cutoff | cutoff >= now - HOUR ensures After(Contents(), cutoff) == After(history, cutoff) {
        PruneTwice(was, now - HOUR, cutoff);
      }
      ok := len < max;
    }

    /** append, into a longer array when this one is full. */
    method Append(now: int)
      requires len <= times.Length
      modifies this`len, this`times, times
      ensures len <= times.Length && Contents() == old(Contents()) + [now]
      ensures times == old(times) || fresh(times)
    {
      ghost var was := times[..len];
      if len == times.Length {
        var grown := new int[2 * len + 1];
        forall i | 0 <= i < len {
          grown[i] := times[i];
        }
        times := grown;
      }
      assert times[..len] == was;
      times[len] := now;
      len := len + 1;
      assert times[..len] == was + [now];
    }

    method Record(now: int)
      requires Valid() && last <= now
      modifies this, times
      ensures Valid() && history == old(history) + [now] && last == now
      ensures times == old(times) || fresh(times)
    {
      ghost var was := Contents();
      Append(now);
      history, last := history + [now], now;
      forall cutoff | cutoff >= last - HOUR ensures After(Contents(), cutoff) == After(history, cutoff) {
        AfterSnoc(was, now, cutoff);
        AfterSnoc(old(history), now, cutoff);
      }
    }

    /** One authorization: granted exactly when nothing else refuses it and, if it
        counts, fewer than max of ALL recorded authorizations lie in the hour
        before the check, whatever was pruned. It is recorded by the clock at its
        end, and only when granted. */
    method Authorize(c: Call, max: nat) returns (granted: bool)
      requires Valid() && last <= c.now <= c.later
      modifies this, times
      ensures Valid() && last <= c.later && (times == old(times) || fresh(times))
      ensures history == Recorded(old(history), c, max)
      ensures granted <==> Granted(old(history), c, max)
    {
      if !c.allowed {
        return false;
      }
      if c.counted {
        var ok := CheckRateLimit(c.now, max);
        if !ok {
          return false;
        }
      }
      if !c.selected {
        return false;
      }
      if c.counted {
        Record(c.later);
      }
      granted := true;
    }
  }

  // ----- Whole runs -----

  /** A call of authorizeAutofixRequestAttempt: the clock at its check and at its
      end, whether the tests before the rate limit pass, whether it counts (only a
      job's first iteration does), and whether the finding keys select something. */
  datatype Call = Call(now: int, later: int, allowed: bool, counted: bool, selected: bool)

  predicate Granted(history: seq<int>, c: Call, max: nat) {
    c.allowed && (c.counted ==> |After(history, c.now - HOUR)| < max) && c.selected
  }

  function Recorded(history: seq<int>, c: Call, max: nat): seq<int> {
    if Granted(history, c, max) && c.counted then history + [c.later] else history
  }

  function RunOf(calls: seq<Call>, max: nat): seq<int> {
    if calls == [] then [] else Recorded(RunOf(calls[..|calls| - 1], max), calls[|calls| - 1], max)
  }

  /** One call after the other, by a clock that never goes back. */
  predicate InOrder(calls: seq<Call>) {
    && (forall i :: 0 <= i < |calls| ==> calls[i].now <= calls[i].later)
    && (forall i, j :: 0 <= i < j < |calls| ==> calls[i].later <= calls[j].now)
  }

  /** Any record and the one max places later are an hour or more apart. */
  predicate Spaced(h: seq<int>, max: nat) {
    forall i :: 0 <= i && i + max < |h| ==> h[i + max] - h[i] >= HOUR
  }

  lemma RecordKeepsSpacing(h: seq<int>, c: Call, max: nat)
    requires Sorted(h) && Spaced(h, max) && max > 0 && (h != [] ==> h[|h| - 1] <= c.now) && c.now <= c.later
    ensures Sorted(Recorded(h, c, max)) && Spaced(Recorded(h, c, max), max)
  {
    AfterIsTail(h, c.now - HOUR);
  }

  lemma {:induction false} RunIsSpaced(calls: seq<Call>, max: nat)
    requires InOrder(calls) && max > 0
    ensures var h := RunOf(calls, max);
            Sorted(h) && Spaced(h, max) && (h != [] ==> calls != [] && h[|h| - 1] <= calls[|calls| - 1].later)
    decreases |calls|
  {
    if calls != [] {
      RunIsSpaced(calls[..|calls| - 1], max);
      RecordKeepsSpacing(RunOf(calls[..|calls| - 1], max), calls[|calls| - 1], max);
    }
  }

  /** The recorded authorizations that fall into the hour from start on. */
  function InHour(h: seq<int>, start: int): set<int> {
    set i | 0 <= i < |h| && start <= h[i] < start + HOUR
  }

  function Range(lo: int, n: nat): (r: set<int>)
    ensures forall i :: i in r <==> lo <= i < lo + n
    ensures |r| == n
  {
    if n == 0 then {} else Range(lo, n - 1) + {lo + n - 1}
  }

  lemma SpacedHour(h: seq<int>, max: nat, start: int)
    requires Sorted(h) && Spaced(h, max)
    ensures |InHour(h, start)| <= max
  {
    AfterIsTail(h, start - 1);
    var lo := |h| - |After(h, start - 1)|;
    var hits := InHour(h, start);
    forall i | i in hits ensures i in Range(lo, max) {
      assert lo + max < |h| ==> h[lo + max] - h[lo] >= HOUR;
    }
    SubsetSize(hits, Range(lo, max));
  }

  /** With a clock that never goes back, every half-open hour, wherever it
      starts, holds at most max recorded authorizations. */
  lemma AtMostMaxPerHour(calls: seq<Call>, max: nat, start: int)
    requires InOrder(calls) && max > 0
    ensures |InHour(RunOf(calls, max), start)| <= max
  {
    RunIsSpaced(calls, max);
    SpacedHour(RunOf(calls, max), max, start);
  }

  function Prompt(now: int): Call {
    Call(now, now, true, true, true)
  }

  /** n calls at the same time. */
  function Burst(now: int, n: nat): seq<Call> {
    if n == 0 then [] else Burst(now, n - 1) + [Prompt(now)]
  }

  function Repeated(now: int, n: nat): (r: seq<int>)
    ensures |r| == n && forall i :: 0 <= i < n ==> r[i] == now
  {
    if n == 0 then [] else Repeated(now, n - 1) + [now]
  }

  lemma {:induction false} AfterRepeated(now: int, n: nat, cutoff: int)
    ensures After(Repeated(now, n), cutoff) == if now > cutoff then Repeated(now, n) else []
    decreases n
  {
    if n > 0 {
      AfterRepeated(now, n - 1, cutoff);
      AfterSnoc(Repeated(now, n - 1), now, cutoff);
    }
  }

  lemma RunSnoc(calls: seq<Call>, c: Call, max: nat)
    ensures RunOf(calls + [c], max) == Recorded(RunOf(calls, max), c, max)
  {
    assert (calls + [c])[..|calls|] == calls;
  }

  lemma {:induction false} RecordedOnTop(now: int, n: nat, max: nat)
    requires n < max
    ensures Recorded(Repeated(now, n), Prompt(now), max) == Repeated(now, n + 1)
  {
    AfterRepeated(now, n, now - HOUR);
  }

  lemma {:induction false} BurstRecorded(now: int, n: nat, max: nat)
    requires n <= max
    ensures RunOf(Burst(now, n), max) == Repeated(now, n)
    decreases n
  {
    if n > 0 {
      BurstRecorded(now, n - 1, max);
      RecordedOnTop(now, n - 1, max);
      RunSnoc(Burst(now, n - 1), Prompt(now), max);
    }
  }

  /** The hour is half-open: after max calls at once the next one is recorded
      exactly from an hour later on, so a closed hour can hold one more. */
  lemma {:induction false} NextAfterExactlyAnHour(start: int, later: int, max: nat)
    requires max > 0 && start <= later
    ensures RunOf(Burst(start, max) + [Prompt(later)], max) ==
            if later >= start + HOUR then Repeated(start, max) + [later] else Repeated(start, max)
  {
    BurstRecorded(start, max, max);
    RunSnoc(Burst(start, max), Prompt(later), max);
    AfterRepeated(start, max, later - HOUR);
  }

  // ----- When a call is granted -----

  /** The places of the timestamps after a cutoff. */
  function Recent(h: seq<int>, cutoff: int): set<nat> {
    set i: nat | i < |h| && h[i] > cutoff
  }

  lemma {:induction false} AfterCounts(h: seq<int>, cutoff: int)
    ensures |After(h, cutoff)| == |Recent(h, cutoff)|
    decreases |h|
  {
    if h == [] {
      assert Recent(h, cutoff) == {};
    } else {
      var n := |h| - 1;
      var front := h[..n];
      AfterCounts(front, cutoff);
      assert forall i: nat :: i < n ==> front[i] == h[i];
      assert Recent(h, cutoff) == Recent(front, cutoff) + (if h[n] > cutoff then {n} else {});
      assert n !in Recent(front, cutoff);
    }
  }

  /** A retry or a call outside the limit depends on its other tests alone; one that
      counts is granted exactly when it passes them and fewer than max of all the
      recorded calls lie in the hour before it. Only such a call is recorded. */
  lemma {:induction false} GrantedExactly(h: seq<int>, c: Call, max: nat)
    ensures !c.counted ==> (Granted(h, c, max) <==> c.allowed && c.selected) && Recorded(h, c, max) == h
    ensures c.counted ==>
              (Granted(h, c, max) <==> c.allowed && c.selected && |Recent(h, c.now - 3_600_000_000_000)| < max)
    ensures c.counted ==> Recorded(h, c, max) == h + (if Granted(h, c, max) then [c.later] else [])
  {
    AfterCounts(h, c.now - HOUR);
  }
}
