/** The sliding-window limiter of core/shared/infra/ratelimit/sliding_window.go, for one key. */
module RateLimits {

  const NANOS := 1_000_000_000

  /** time.Unix of a stamp in nanoseconds since 1970 */
  function Unix(stamp: nat): (second: nat)
    ensures second * NANOS <= stamp < (second + 1) * NANOS
  {
    stamp / NANOS
  }

  /** The window in whole seconds, rounded down, but at least one. */
  function WindowSeconds(window: int): (w: nat)
    ensures w >= 1
    ensures window >= NANOS ==> w * NANOS <= window < (w + 1) * NANOS
    ensures window < NANOS ==> w == 1
  {
    if window < NANOS then 1 else window / NANOS
  }

  /** The stamp's second is among the last w seconds, up to that of `now`. */
  predicate Recent(stamp: nat, now: nat, w: nat) { Unix(stamp) > Unix(now) - w }

  function RecentOf(stamps: set<nat>, now: nat, w: nat): set<nat> { set t | t in stamps && Recent(t, now, w) }

  /** Which of the four cache commands of one call report an error. */
  datatype Faults = Faults(add: bool, prune: bool, count: bool, expire: bool)

  /** The sorted set the limiter keeps in the cache: member (the stamp) to score, and when the key runs out. */
  datatype Key = Absent | Present(scores: map<nat, nat>, expires: Expiry)
  datatype Expiry = Never | At(stamp: nat)

  function Scores(k: Key): map<nat, nat> { if k.Absent? then map[] else k.scores }

  /** The key as the cache shows it at `now`. */
  function Visible(k: Key, now: nat): Key {
    if k.Present? && k.expires.At? && k.expires.stamp <= now then Absent else k
  }

  /** ZADD, ZREMRANGEBYSCORE and EXPIRE as the limiter uses them */
  function Added(k: Key, now: nat): Key {
    Present(Scores(k)[now := Unix(now)], if k.Present? then k.expires else Never)
  }

  function Pruned(k: Key, upTo: int): Key {
    if k.Absent? then k
    else k.(scores := map t | t in k.scores && !(0 <= k.scores[t] <= upTo) :: k.scores[t])
  }

  function ExpiresAt(k: Key, stamp: nat): Key { if k.Absent? then k else k.(expires := At(stamp)) }

  /** The cache holds only calls, each with its second as its score. */
  ghost predicate OnlyCalls(k: Key, calls: set<nat>) {
    forall t | t in Scores(k) :: t in calls && Scores(k)[t] == Unix(t)
  }

  /** The cache holds every call that is recent at `now`. */
  ghost predicate HasRecent(k: Key, calls: set<nat>, now: nat, w: nat) {
    forall t | t in calls && Recent(t, now, w) :: t in Scores(k)
  }

  /** The key does not run out while one of its calls is recent. */
  ghost predicate Outlives(k: Key, w: nat) {
    k.Present? && k.expires.At? ==> forall t | t in Scores(k) :: t + w * NANOS <= k.expires.stamp
  }

  /** Neither time passing nor the key running out loses a recent call. */
  lemma TimePasses(k: Key, calls: set<nat>, before: nat, now: nat, w: nat)
    requires OnlyCalls(k, calls) && HasRecent(k, calls, before, w) && Outlives(k, w) && before <= now
    ensures HasRecent(Visible(k, now), calls, now, w) && Outlives(Visible(k, now), w)
  {
    forall t | t in calls && Recent(t, now, w) ensures t in Scores(Visible(k, now)) {
      RecentBefore(t, before, now, w);
      assert t in Scores(k);
      if k.expires.At? { OutlivesRecent(t, k.expires.stamp, now, w); }
    }
  }

  lemma RecentBefore(t: nat, earlier: nat, now: nat, w: nat)
    requires Recent(t, now, w) && earlier <= now
    ensures Recent(t, earlier, w)
  {
  }

  lemma OutlivesRecent(t: nat, expires: nat, now: nat, w: nat)
    requires t + w * NANOS <= expires && Recent(t, now, w)
    ensures now < expires
  {
  }

  lemma CallAdded(k: Key, calls: set<nat>, now: nat, w: nat)
    requires OnlyCalls(k, calls)
    ensures OnlyCalls(Added(k, now), calls + {now})
    ensures HasRecent(k, calls, now, w) ==> HasRecent(Added(k, now), calls + {now}, now, w)
  {
    hide Recent, Unix;
  }

  lemma OldPruned(k: Key, calls: set<nat>, now: nat, w: nat)
    requires OnlyCalls(k, calls)
    ensures OnlyCalls(Pruned(k, Unix(now) - w), calls)
    ensures HasRecent(k, calls, now, w) ==> HasRecent(Pruned(k, Unix(now) - w), calls, now, w)
    ensures HasRecent(k, calls, now, w) ==> Scores(Pruned(k, Unix(now) - w)).Keys == RecentOf(calls, now, w)
  {
    hide Unix;
  }

  lemma CountedEnough(k: Key, calls: set<nat>, now: nat, w: nat)
    requires HasRecent(k, calls, now, w)
    ensures |RecentOf(calls, now, w)| <= |Scores(k)|
  {
    hide Recent, Unix;
    SubsetIsSmaller(RecentOf(calls, now, w), Scores(k).Keys);
    assert |Scores(k)| == |Scores(k).Keys|;
  }

  lemma CountedExactly(k: Key, stamps: set<nat>)
    requires Scores(k).Keys == stamps
    ensures |Scores(k)| == |stamps|
  {
    assert |Scores(k)| == |Scores(k).Keys|;
  }

  lemma ExpiryExtended(k: Key, calls: set<nat>, now: nat, w: nat)
    requires OnlyCalls(k, calls) && forall t | t in calls :: t <= now
    ensures Outlives(ExpiresAt(k, now + w * NANOS), w)
  {
    var l := ExpiresAt(k, now + w * NANOS);
    forall t | t in Scores(l) ensures t + w * NANOS <= now + w * NANOS { assert t in Scores(k); }
  }

  class SlidingWindowLimiter {
    const limit: int
    const window: int
    var key: Key
    /** the stamps of all calls whose ZAdd went through */
    ghost var calls: set<nat>
    /** the latest of all calls, and whether every count and expiry so far went through */
    ghost var latest: nat
    ghost var steady: bool

    constructor (limit: int, window: int)
      ensures Valid() && calls == {} && latest == 0 && steady && this.limit == limit && this.window == window
    {
      this.limit, this.window, key := limit, window, Absent;
      calls, latest, steady := {}, 0, true;
    }

    /** The cache holds calls only, every recent one among them, on a key that outlives them. */
    ghost predicate Valid()
      reads this
    {
      && (forall t | t in calls :: t <= latest)
      && OnlyCalls(key, calls)
      && (steady ==> HasRecent(key, calls, latest, WindowSeconds(window)) && Outlives(key, WindowSeconds(window)))
    }

    /**
     Allow at time `now`, on a clock that does not go back. Without cache errors it answers whether the calls of
     the last window seconds, accepted or refused and this one included, number at most the limit: neither the
     pruning nor the running out of the key ever changes the answer. A cache error lets the call through.
     */
    method Allow(now: nat, faults: Faults) returns (ok: bool)
      requires Valid() && latest <= now
      modifies this
      ensures Valid() && latest == now
      ensures calls == if faults.add then old(calls) else old(calls) + {now}
      ensures steady == (old(steady) && (faults.add || (!faults.count && !faults.expire)))
      ensures faults.add || faults.count ==> ok
      ensures old(steady) && !faults.add && !faults.prune && !faults.count ==>
                (ok <==> |RecentOf(calls, now, WindowSeconds(window))| <= limit)
      ensures old(steady) && !faults.add && !faults.count && ok ==> |RecentOf(calls, now, WindowSeconds(window))| <= limit
    {
      hide Recent, Unix, Added, Pruned, ExpiresAt, OnlyCalls, HasRecent, Outlives, Visible, WindowSeconds, RecentOf, Scores;
      var w := WindowSeconds(window);
      if steady { TimePasses(key, calls, latest, now, w); }
      VisibleIsPart(key, calls, now);
      key := Visible(key, now);
      latest := now;
      if faults.add {
        return true;
      }
      CallAdded(key, calls, now, w);
      key := Added(key, now);
      calls := calls + {now};
      steady := steady && !faults.count && !faults.expire;
      if !faults.prune {
        OldPruned(key, calls, now, w);
        key := Pruned(key, Unix(now) - w);
        if old(steady) { CountedExactly(key, RecentOf(calls, now, w)); }
      }
      if old(steady) { CountedEnough(key, calls, now, w); }
      if faults.count {
        return true;
      }
      var count := |Scores(key)|;
      if !faults.expire {
        ExpiryExtended(key, calls, now, w);
        ScoresStay(key, calls, now, w, now + w * NANOS);
        key := ExpiresAt(key, now + w * NANOS);
      }
      return count <= limit;
    }
  }

  lemma VisibleIsPart(k: Key, calls: set<nat>, now: nat)
    requires OnlyCalls(k, calls)
    ensures OnlyCalls(Visible(k, now), calls)
  {
    hide Unix;
  }

  lemma ScoresStay(k: Key, calls: set<nat>, now: nat, w: nat, stamp: nat)
    ensures OnlyCalls(k, calls) ==> OnlyCalls(ExpiresAt(k, stamp), calls)
    ensures HasRecent(k, calls, now, w) ==> HasRecent(ExpiresAt(k, stamp), calls, now, w)
  {
    hide Recent, Unix;
  }

  lemma {:induction false} SubsetIsSmaller(a: set<nat>, b: set<nat>)
    requires a <= b
    ensures |a| <= |b|
  {
    if a != {} {
      var t :| t in a;
      SubsetIsSmaller(a - {t}, b - {t});
    }
  }

  // ---------------------------------------------------------------- whole histories

  /** Stamps in order, no two the same. */
  predicate Increasing(stamps: seq<nat>) { forall i, j | 0 <= i < j < |stamps| :: stamps[i] < stamps[j] }

  function StampsOf(stamps: seq<nat>): set<nat> { set t | t in stamps }

  /** How many of the calls fall into the last w seconds. */
  function RecentCount(stamps: seq<nat>, now: nat, w: nat): nat {
    if stamps == [] then 0 else
      RecentCount(stamps[..|stamps| - 1], now, w) + if Recent(stamps[|stamps| - 1], now, w) then 1 else 0
  }

  /** With distinct stamps, counting members of the set is counting calls. */
  lemma {:induction false} MembersAreCalls(stamps: seq<nat>, now: nat, w: nat)
    requires Increasing(stamps)
    ensures |RecentOf(StampsOf(stamps), now, w)| == RecentCount(stamps, now, w)
  {
    hide Recent, RecentOf, StampsOf;
    if stamps == [] {
      NoneRecent(now, w);
    } else {
      var n := |stamps| - 1;
      MembersAreCalls(stamps[..n], now, w);
      OneMore(stamps[..n], stamps[n], now, w);
      assert stamps == stamps[..n] + [stamps[n]];
    }
  }

  lemma NoneRecent(now: nat, w: nat)
    ensures RecentOf(StampsOf([]), now, w) == {}
  {
  }

  lemma OneMore(stamps: seq<nat>, t: nat, now: nat, w: nat)
    requires t !in stamps
    ensures t !in RecentOf(StampsOf(stamps), now, w)
    ensures RecentOf(StampsOf(stamps + [t]), now, w) == RecentOf(StampsOf(stamps), now, w) + if Recent(t, now, w) then {t} else {}
  {
    hide Recent;
    assert StampsOf(stamps + [t]) == StampsOf(stamps) + {t};
  }

  /** The answer to the i-th of a series of calls, by Allow's contract. */
  predicate Accepted(stamps: seq<nat>, i: nat, limit: int, w: nat)
    requires i < |stamps|
  {
    RecentCount(stamps[..i + 1], stamps[i], w) <= limit
  }

  /** The accepted ones among the first n calls whose second is in (from, from + w]. */
  function AcceptedIn(stamps: seq<nat>, n: nat, limit: int, w: nat, from: int): nat
    requires n <= |stamps|
  {
    if n == 0 then 0 else
      AcceptedIn(stamps, n - 1, limit, w, from)
      + if Accepted(stamps, n - 1, limit, w) && from < Unix(stamps[n - 1]) <= from + w then 1 else 0
  }

  /** No window of w seconds, wherever it starts, holds more accepted calls than the limit. */
  lemma {:induction false} NoWindowOverfull(stamps: seq<nat>, n: nat, limit: int, w: nat, from: int)
    requires Increasing(stamps) && n <= |stamps|
    ensures AcceptedIn(stamps, n, limit, w, from) <= if limit < 0 then 0 else limit
  {
    if n > 0 {
      NoWindowOverfull(stamps, n - 1, limit, w, from);
      var now := stamps[n - 1];
      if Accepted(stamps, n - 1, limit, w) && from < Unix(now) <= from + w {
        AcceptedAreRecent(stamps, n - 1, limit, w, from, now);
        assert stamps[..n][..n - 1] == stamps[..n - 1];
        assert stamps[..n - 1 + 1] == stamps[..n];
      }
    }
  }

  /** All earlier accepted calls of the window are recent at a later time within it. */
  lemma {:induction false} AcceptedAreRecent(stamps: seq<nat>, n: nat, limit: int, w: nat, from: int, now: nat)
    requires Increasing(stamps) && n <= |stamps| && Unix(now) <= from + w
    ensures AcceptedIn(stamps, n, limit, w, from) <= RecentCount(stamps[..n], now, w)
  {
    hide Accepted;
    if n > 0 {
      AcceptedAreRecent(stamps, n - 1, limit, w, from, now);
      assert stamps[..n][..n - 1] == stamps[..n - 1];
    }
  }

  /** For the limiter's own window: in no stretch of its seconds are more calls accepted than the limit. */
  lemma OwnWindowNeverOverfull(stamps: seq<nat>, limit: int, window: int, from: int)
    requires Increasing(stamps)
    ensures AcceptedIn(stamps, |stamps|, limit, WindowSeconds(window), from) <= if limit < 0 then 0 else limit
    ensures window >= NANOS ==> AcceptedIn(stamps, |stamps|, limit, window / NANOS, from) <= if limit < 0 then 0 else limit
  {
    NoWindowOverfull(stamps, |stamps|, limit, WindowSeconds(window), from);
  }

  lemma {:induction false} AllRecent(stamps: seq<nat>, now: nat, w: nat)
    requires forall t | t in stamps :: Recent(t, now, w)
    ensures RecentCount(stamps, now, w) == |stamps|
  {
    hide Recent;
    if stamps != [] { AllRecent(stamps[..|stamps| - 1], now, w); }
  }

  /** Sixty-one calls, half a second apart. */
  function HalfSeconds(): (stamps: seq<nat>)
    ensures |stamps| == 61 && forall i | 0 <= i < 61 :: stamps[i] == 500_000_000 * i
  {
    seq(61, i requires 0 <= i < 61 => 500_000_000 * i)
  }

  lemma MinuteIsSixty()
    ensures WindowSeconds(60_000_000_000) == 60
  {
  }

  lemma EarlyIsRecent(t: nat, now: nat)
    requires now < 60_000_000_000
    ensures Recent(t, now, 60)
  {
    assert Unix(now) < 60;
  }

  /** Sixty calls a minute: the sixtieth of them passes and the sixty-first does not. */
  lemma SixtyPerMinute()
    ensures var w := WindowSeconds(60_000_000_000);
            Increasing(HalfSeconds()) && Accepted(HalfSeconds(), 59, 60, w) && !Accepted(HalfSeconds(), 60, 60, w)
  {
    hide HalfSeconds, Recent, Unix, RecentCount;
    MinuteIsSixty();
    var stamps := HalfSeconds();
    forall t | t in stamps[..60] ensures Recent(t, stamps[59], 60) { EarlyIsRecent(t, stamps[59]); }
    forall t | t in stamps[..61] ensures Recent(t, stamps[60], 60) { EarlyIsRecent(t, stamps[60]); }
    AllRecent(stamps[..60], stamps[59], 60);
    AllRecent(stamps[..61], stamps[60], 60);
  }

  // ---------------------------------------------------------------- in nanoseconds

  /** The accepted ones among the first n calls within w seconds, to the nanosecond, from `start`. */
  function AcceptedWithin(stamps: seq<nat>, n: nat, limit: int, w: nat, start: nat): nat
    requires n <= |stamps|
  {
    if n == 0 then 0 else
      AcceptedWithin(stamps, n - 1, limit, w, start)
      + if Accepted(stamps, n - 1, limit, w) && start <= stamps[n - 1] < start + w * NANOS then 1 else 0
  }

  /**
   The limiter counts in whole seconds. A stretch of w seconds that starts on one stays within the limit; a
   stretch that starts within one stays within twice the limit.
   */
  lemma {:induction false} AtMostTwice(stamps: seq<nat>, n: nat, limit: nat, w: nat, start: nat)
    requires Increasing(stamps) && n <= |stamps|
    ensures AcceptedWithin(stamps, n, limit, w, start) <= if start % NANOS == 0 then limit else 2 * limit
  {
    var second := Unix(start);
    WithinTwoWindows(stamps, n, limit, w, start);
    NoWindowOverfull(stamps, n, limit, w, second - 1);
    NoWindowOverfull(stamps, n, limit, w, second - 1 + w);
  }

  lemma {:induction false} WithinTwoWindows(stamps: seq<nat>, n: nat, limit: int, w: nat, start: nat)
    requires n <= |stamps|
    ensures AcceptedWithin(stamps, n, limit, w, start)
         <= AcceptedIn(stamps, n, limit, w, Unix(start) - 1)
            + if start % NANOS == 0 then 0 else AcceptedIn(stamps, n, limit, w, Unix(start) - 1 + w)
  {
    hide Accepted;
    if n > 0 {
      WithinTwoWindows(stamps, n - 1, limit, w, start);
      var t := stamps[n - 1];
      if start <= t < start + w * NANOS { SecondsOf(t, w, start); }
    }
  }

  lemma SecondsOf(t: nat, w: nat, start: nat)
    requires start <= t < start + w * NANOS
    ensures Unix(start) <= Unix(t) <= Unix(start) + w
    ensures start % NANOS == 0 ==> Unix(t) < Unix(start) + w
  {
  }

  // The calls of an overfull stretch: one at its start, the others at its very end.
  function Crowd(limit: nat, w: nat, start: nat): (stamps: seq<nat>)
    requires limit < w * NANOS
    ensures |stamps| == limit + 1
  {
    seq(limit + 1, i requires 0 <= i < limit + 1 => if i == 0 then start else start + w * NANOS - limit - 1 + i)
  }

  lemma {:induction false} CountIsBounded(stamps: seq<nat>, now: nat, w: nat)
    ensures RecentCount(stamps, now, w) <= |stamps|
    ensures stamps != [] && !Recent(stamps[0], now, w) ==> RecentCount(stamps, now, w) < |stamps|
  {
    hide Recent;
    if stamps != [] {
      CountIsBounded(stamps[..|stamps| - 1], now, w);
    }
  }

  /** All of them are accepted: the last one comes in a second for which the first is no longer recent. */
  lemma CrowdIsAccepted(limit: nat, w: nat, start: nat, i: nat)
    requires start % NANOS != 0 && 0 < limit < w * NANOS && i <= limit
    ensures Accepted(Crowd(limit, w, start), i, limit, w)
    ensures start <= Crowd(limit, w, start)[i] < start + w * NANOS
  {
    var stamps := Crowd(limit, w, start);
    CountIsBounded(stamps[..i + 1], stamps[i], w);
    if i == limit { LastSecond(w, start); }
  }

  lemma LastSecond(w: nat, start: nat)
    requires start % NANOS != 0 && w > 0
    ensures !Recent(start, start + w * NANOS - 1, w)
  {
    var s := Unix(start);
    assert start >= s * NANOS + 1;
    assert Unix(start + w * NANOS - 1) >= s + w;
  }

  lemma {:induction false} AllWithin(stamps: seq<nat>, n: nat, limit: int, w: nat, start: nat)
    requires n <= |stamps|
    requires forall i | 0 <= i < n :: Accepted(stamps, i, limit, w) && start <= stamps[i] < start + w * NANOS
    ensures AcceptedWithin(stamps, n, limit, w, start) == n
  {
    hide Accepted;
    if n > 0 { AllWithin(stamps, n - 1, limit, w, start); }
  }

  /** A stretch of w seconds has room for so many stamps only. */
  lemma {:induction false} StretchHasRoom(stamps: seq<nat>, n: nat, limit: int, w: nat, start: nat)
    requires Increasing(stamps) && n <= |stamps|
    ensures AcceptedWithin(stamps, n, limit, w, start) <= w * NANOS
    ensures n > 0 ==> AcceptedWithin(stamps, n, limit, w, start) <= if stamps[n - 1] < start then 0 else stamps[n - 1] - start + 1
  {
    hide Accepted;
    if n > 0 { StretchHasRoom(stamps, n - 1, limit, w, start); }
  }

  lemma {:induction false} NoneAccepted(stamps: seq<nat>, n: nat, limit: int, w: nat, start: nat)
    requires n <= |stamps| && limit <= 0 && w > 0
    ensures AcceptedWithin(stamps, n, limit, w, start) == 0
  {
    if n > 0 {
      NoneAccepted(stamps, n - 1, limit, w, start);
      OwnCallCounts(stamps[..n], w);
    }
  }

  /** A call is always among the recent ones of its own moment. */
  lemma OwnCallCounts(stamps: seq<nat>, w: nat)
    requires stamps != [] && w > 0
    ensures RecentCount(stamps, stamps[|stamps| - 1], w) > 0
  {
  }

  /**
   Exactly when the limiter can let more than the limit through in a stretch of w seconds that begins at `start`:
   when the stretch does not begin on a whole second, the limit is positive, and the stretch has room for
   more calls than that.
   */
  lemma OverfullExactly(limit: int, w: nat, start: nat)
    requires w > 0
    ensures (exists stamps :: Increasing(stamps) && AcceptedWithin(stamps, |stamps|, limit, w, start) > if limit < 0 then 0 else limit)
       <==> start % NANOS != 0 && 0 < limit < w * NANOS
  {
    hide Accepted, Recent, AcceptedIn;
    if start % NANOS != 0 && 0 < limit < w * NANOS {
      var stamps := Crowd(limit, w, start);
      forall i | 0 <= i < |stamps|
        ensures Accepted(stamps, i, limit, w) && start <= stamps[i] < start + w * NANOS
      {
        CrowdIsAccepted(limit, w, start, i);
      }
      AllWithin(stamps, |stamps|, limit, w, start);
      assert Increasing(stamps);
    } else {
      forall stamps | Increasing(stamps)
        ensures AcceptedWithin(stamps, |stamps|, limit, w, start) <= if limit < 0 then 0 else limit
      {
        if limit <= 0 {
          NoneAccepted(stamps, |stamps|, limit, w, start);
        } else if limit >= w * NANOS {
          StretchHasRoom(stamps, |stamps|, limit, w, start);
        } else {
          AtMostTwice(stamps, |stamps|, limit, w, start);
        }
      }
    }
  }

  /** The smallest instance: two calls a tenth of a second apart both pass a limit of one call a second. */
  lemma TwiceHappens()
    ensures var stamps := [900_000_000, 1_000_000_000];
            && Increasing(stamps) && AcceptedWithin(stamps, 2, 1, 1, 900_000_000) == 2
  {
    var stamps: seq<nat> := [900_000_000, 1_000_000_000];
    assert stamps[..1] == [900_000_000] && stamps[..2] == stamps && stamps[..2][..1] == stamps[..1] && stamps[..1][..0] == [];
    assert Unix(stamps[0]) == 0 && Unix(stamps[1]) == 1;
    assert RecentCount([], 900_000_000, 1) == 0 && RecentCount([], 1_000_000_000, 1) == 0;
    assert RecentCount(stamps[..1], stamps[0], 1) == 1;
    assert RecentCount(stamps[..1], stamps[1], 1) == 0;
    assert RecentCount(stamps[..2], stamps[1], 1) == 1;
    assert Accepted(stamps, 0, 1, 1) && Accepted(stamps, 1, 1, 1);
    assert AcceptedWithin(stamps, 1, 1, 1, 900_000_000) == 1;
  }
}
