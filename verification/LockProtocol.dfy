/**
 Any number of WithLocks calls at once, interleaved step by step on one lock server: no circular wait, always a
 way forward, no key released under another call's token, and mutual exclusion while no lock expires.
 */
module LockProtocol {
  import opened Text
  import opened Locks

  /** Where a call is; the number is how many of its keys, from the front, it has acquired and not yet released. */
  datatype Phase = Acquiring(n: nat) | Running | Releasing(n: nat)

  /**
   One entry of `keys` and `phase` per call; the call's index stands for its token. `held` is the server's map.
   `expired` and `lost` remember the locks that ran out and those with a lost acquire or release.
   */
  datatype System = System(
    keys: seq<seq<string>>, phase: seq<Phase>, held: map<string, nat>,
    expired: set<(nat, string)>, lost: set<(nat, string)>)

  datatype Action =
    | Grab(c: nat)             // the next key was free
    | GiveUp(c: nat)           // timeout or error on the next key
    | LoseGrab(c: nat)         // the next key was locked, but the reply got lost: an error to the call
    | Enter(c: nat)            // all keys acquired: the function starts
    | Leave(c: nat)            // the function returned
    | Release(c: nat)          // compare-and-delete of the last key still held
    | LoseRelease(c: nat)      // the same, but the request got lost
    | Expire(key: string)      // the server drops a lock

  predicate WellTyped(s: System) {
    && |s.phase| == |s.keys|
    && forall c | 0 <= c < |s.keys| ::
         Ascending(s.keys[c]) && (!s.phase[c].Running? ==> s.phase[c].n <= |s.keys[c]|)
  }

  // The key lists are the callers' sorted key lists (Locks.NormalizeKeys), hence ascending.

  /** Call c is at the point of trying its next key. */
  predicate Trying(s: System, c: nat)
    requires WellTyped(s)
  {
    c < |s.keys| && s.phase[c].Acquiring? && s.phase[c].n < |s.keys[c]|
  }

  function NextKey(s: System, c: nat): string
    requires WellTyped(s) && Trying(s, c)
  {
    s.keys[c][s.phase[c].n]
  }

  predicate Done(s: System, c: nat)
    requires WellTyped(s) && c < |s.keys|
  {
    s.phase[c] == Releasing(0)
  }

  predicate Enabled(s: System, a: Action)
    requires WellTyped(s)
  {
    match a
    case Grab(c) => Trying(s, c) && NextKey(s, c) !in s.held
    case GiveUp(c) => Trying(s, c)
    case LoseGrab(c) => Trying(s, c) && NextKey(s, c) !in s.held
    case Enter(c) => c < |s.keys| && s.phase[c] == Acquiring(|s.keys[c]|)
    case Leave(c) => c < |s.keys| && s.phase[c] == Running
    case Release(c) => c < |s.keys| && s.phase[c].Releasing? && s.phase[c].n > 0
    case LoseRelease(c) => c < |s.keys| && s.phase[c].Releasing? && s.phase[c].n > 0
    case Expire(key) => key in s.held
  }

  function Next(s: System, a: Action): (t: System)
    requires WellTyped(s) && Enabled(s, a)
    ensures WellTyped(t) && t.keys == s.keys
  {
    match a
    case Grab(c) => s.(phase := s.phase[c := Acquiring(s.phase[c].n + 1)], held := s.held[NextKey(s, c) := c])
    case GiveUp(c) => s.(phase := s.phase[c := Releasing(s.phase[c].n)])
    case LoseGrab(c) =>
      s.(phase := s.phase[c := Releasing(s.phase[c].n)], held := s.held[NextKey(s, c) := c], lost := s.lost + {(c, NextKey(s, c))})
    case Enter(c) => s.(phase := s.phase[c := Running])
    case Leave(c) => s.(phase := s.phase[c := Releasing(|s.keys[c]|)])
    case Release(c) =>
      var key := s.keys[c][s.phase[c].n - 1];
      s.(phase := s.phase[c := Releasing(s.phase[c].n - 1)],
         held := if key in s.held && s.held[key] == c then s.held - {key} else s.held)
    case LoseRelease(c) =>
      var key := s.keys[c][s.phase[c].n - 1];
      s.(phase := s.phase[c := Releasing(s.phase[c].n - 1)], lost := s.lost + {(c, key)})
    case Expire(key) => s.(held := s.held - {key}, expired := s.expired + {(s.held[key], key)})
  }

  /** How many of its keys call c may still hold in earnest. */
  function Reach(s: System, c: nat): nat
    requires WellTyped(s) && c < |s.keys|
    ensures Reach(s, c) <= |s.keys[c]|
  {
    if s.phase[c].Running? then |s.keys[c]| else s.phase[c].n
  }

  /**
   A lock on the server belongs to a call that has acquired the key and not yet released it, or is lost; and a key acquired and not yet released is locked, unless it has expired.
   */
  ghost predicate Inv(s: System) {
    && WellTyped(s)
    && (forall k | k in s.held :: s.held[k] < |s.keys| && (k in s.keys[s.held[k]][..Reach(s, s.held[k])] || (s.held[k], k) in s.lost))
    && (forall c, i | 0 <= c < |s.keys| && 0 <= i < Reach(s, c) ::
          (s.keys[c][i] in s.held && s.held[s.keys[c][i]] == c) || (c, s.keys[c][i]) in s.expired)
    && (forall c, k | (c, k) in s.lost :: c < |s.keys| && s.phase[c].Releasing?)
  }

  ghost predicate Initial(s: System) {
    WellTyped(s) && s.held == map[] && s.expired == {} && s.lost == {}
    && forall c | 0 <= c < |s.keys| :: s.phase[c] == Acquiring(0)
  }

  lemma InitialInv(s: System)
    requires Initial(s)
    ensures Inv(s)
  {
  }

  lemma AscendingIsDistinct(keys: seq<string>, i: nat, j: nat)
    requires Ascending(keys) && i < |keys| && j < |keys| && keys[i] == keys[j]
    ensures i == j
  {
    hide Text.Less;
    LessIrreflexive(keys[i]);
  }

  /** Every step keeps the invariant. */
  lemma NextKeepsInv(s: System, a: Action)
    requires Inv(s) && Enabled(s, a)
    ensures Inv(Next(s, a))
  {
    hide Text.Less, Ascending;
    match a {
      case Grab(c) => GrabKeepsInv(s, c);
      case GiveUp(c) =>
      case LoseGrab(c) => LoseGrabKeepsInv(s, c);
      case Enter(c) =>
      case Leave(c) =>
      case Release(c) => ReleaseKeepsInv(s, c);
      case LoseRelease(c) => LoseKeepsInv(s, c);
      case Expire(key) => ExpireKeepsInv(s, key);
    }
  }

  lemma ExpireKeepsInv(s: System, key: string)
    requires Inv(s) && Enabled(s, Expire(key))
    ensures Inv(Next(s, Expire(key)))
  {
    hide Text.Less, Ascending;
  }

  lemma LoseGrabKeepsInv(s: System, c: nat)
    requires Inv(s) && Enabled(s, LoseGrab(c))
    ensures Inv(Next(s, LoseGrab(c)))
  {
    hide Text.Less, Ascending;
  }

  lemma GrabKeepsInv(s: System, c: nat)
    requires Inv(s) && Enabled(s, Grab(c))
    ensures Inv(Next(s, Grab(c)))
  {
    hide Text.Less, Ascending;
    var t := Next(s, Grab(c));
    var n := s.phase[c].n;
    assert t.keys[c][..n + 1] == t.keys[c][..n] + [NextKey(s, c)];
    forall k | k in t.held
      ensures t.held[k] < |t.keys| && (k in t.keys[t.held[k]][..Reach(t, t.held[k])] || (t.held[k], k) in t.lost)
    {
      if k == NextKey(s, c) { assert t.keys[c][..n + 1][n] == k; }
    }
  }

  lemma ReleaseKeepsInv(s: System, c: nat)
    requires Inv(s) && Enabled(s, Release(c))
    ensures Inv(Next(s, Release(c)))
  {
    hide Text.Less, Ascending;
    var t := Next(s, Release(c));
    var n := s.phase[c].n - 1;
    assert s.keys[c][..n + 1] == s.keys[c][..n] + [s.keys[c][n]];
    forall d, i | 0 <= d < |t.keys| && 0 <= i < Reach(t, d)
      ensures (t.keys[d][i] in t.held && t.held[t.keys[d][i]] == d) || (d, t.keys[d][i]) in t.expired
    {
      if d == c && t.keys[c][i] == s.keys[c][n] { AscendingIsDistinct(s.keys[c], i, n); }
    }
  }

  lemma LoseKeepsInv(s: System, c: nat)
    requires Inv(s) && Enabled(s, LoseRelease(c))
    ensures Inv(Next(s, LoseRelease(c)))
  {
    hide Text.Less, Ascending;
    var n := s.phase[c].n - 1;
    assert s.keys[c][..n + 1] == s.keys[c][..n] + [s.keys[c][n]];
  }

  /** A run; an action that is not enabled ends it. */
  function Run(s: System, actions: seq<Action>): (t: System)
    requires WellTyped(s)
    ensures WellTyped(t) && t.keys == s.keys
    decreases |actions|
  {
    if actions == [] || !Enabled(s, actions[0]) then s else Run(Next(s, actions[0]), actions[1..])
  }

  lemma {:induction false} RunKeepsInv(s: System, actions: seq<Action>)
    requires Inv(s)
    ensures Inv(Run(s, actions))
    decreases |actions|
  {
    hide Inv, Next, Enabled;
    InvIsWellTyped(s);
    if actions != [] && Enabled(s, actions[0]) {
      NextKeepsInv(s, actions[0]);
      RunKeepsInv(Next(s, actions[0]), actions[1..]);
    }
  }

  lemma InvIsWellTyped(s: System)
    requires Inv(s)
    ensures WellTyped(s)
  {
    hide Ascending;
  }

  /** A step of one call never unlocks a key that is locked under another call's token; only expiry does. */
  lemma OnlyOwnKeysFreed(s: System, a: Action, k: string)
    requires WellTyped(s) && Enabled(s, a) && k in s.held && (a.Expire? ==> a.key != k)
    ensures k in Next(s, a).held ==> Next(s, a).held[k] == s.held[k]
    ensures k !in Next(s, a).held ==> a == Release(s.held[k])
  {
    hide Ascending;
  }

  /** Once a call is done, nothing is locked under its token except keys with a lost acquire or release. */
  lemma DoneHoldsNothing(s: System, c: nat, k: string)
    requires Inv(s) && c < |s.keys| && Done(s, c) && k in s.held && s.held[k] == c
    ensures (c, k) in s.lost
  {
    hide Ascending;
  }

  // ---------------------------------------------------------------- mutual exclusion

  /** Two calls that run at once share no key, unless one of their locks on it has expired. */
  lemma MutualExclusion(s: System, actions: seq<Action>, c: nat, d: nat, k: string)
    requires Initial(s) && c < d < |s.keys| && k in s.keys[c] && k in s.keys[d]
    requires var t := Run(s, actions); t.phase[c].Running? && t.phase[d].Running?
    ensures (c, k) in Run(s, actions).expired || (d, k) in Run(s, actions).expired
  {
    hide Ascending, Run;
    InitialInv(s);
    RunKeepsInv(s, actions);
    var t := Run(s, actions);
    var i :| 0 <= i < |s.keys[c]| && s.keys[c][i] == k;
    var j :| 0 <= j < |s.keys[d]| && s.keys[d][j] == k;
    assert i < Reach(t, c) && j < Reach(t, d);
  }

  // ---------------------------------------------------------------- no circular wait

  /** Call c is trying a key that call d has locked. */
  ghost predicate WaitsFor(s: System, c: nat, d: nat) {
    WellTyped(s) && Trying(s, c) && NextKey(s, c) in s.held && s.held[NextKey(s, c)] == d
  }

  /** If the call waited for is itself trying a key, that key is a later one. */
  lemma WaitsForLater(s: System, c: nat, d: nat)
    requires Inv(s) && WaitsFor(s, c, d) && Trying(s, d)
    ensures Less(NextKey(s, c), NextKey(s, d))
  {
    hide Text.Less;
    var k, n := NextKey(s, c), s.phase[d].n;
    assert k in s.keys[d][..n];
    var i :| 0 <= i < n && s.keys[d][i] == k;
  }

  /** Calls each of which waits for the next. */
  ghost predicate Chain(s: System, calls: seq<nat>) {
    forall i | 0 <= i < |calls| - 1 :: WaitsFor(s, calls[i], calls[i + 1])
  }

  lemma {:induction false} ChainAscends(s: System, calls: seq<nat>)
    requires Inv(s) && |calls| >= 2 && Chain(s, calls) && Trying(s, calls[|calls| - 1])
    ensures Trying(s, calls[0]) && Less(NextKey(s, calls[0]), NextKey(s, calls[|calls| - 1]))
    decreases |calls|
  {
    hide Inv, Text.Less, Trying, NextKey;
    assert WaitsFor(s, calls[0], calls[1]);
    WaitingIsTrying(s, calls[0], calls[1]);
    if |calls| == 2 {
      WaitsForLater(s, calls[0], calls[1]);
    } else {
      var rest := calls[1..];
      forall i | 0 <= i < |rest| - 1 ensures WaitsFor(s, rest[i], rest[i + 1]) {
        assert WaitsFor(s, calls[i + 1], calls[i + 2]);
      }
      ChainAscends(s, rest);
      WaitsForLater(s, calls[0], calls[1]);
      LessTransitive(NextKey(s, calls[0]), NextKey(s, calls[1]), NextKey(s, calls[|calls| - 1]));
    }
  }

  lemma WaitingIsTrying(s: System, c: nat, d: nat)
    requires WaitsFor(s, c, d)
    ensures WellTyped(s) && Trying(s, c)
  {
    hide Ascending;
  }

  /** No circular wait: however the calls, the expiries and the lost releases interleave. */
  lemma NoCircularWait(s: System, actions: seq<Action>, calls: seq<nat>)
    requires Initial(s) && |calls| >= 2 && calls[0] == calls[|calls| - 1]
    ensures !Chain(Run(s, actions), calls)
  {
    hide Ascending, Run, Inv, Text.Less, Trying, NextKey;
    InitialInv(s);
    RunKeepsInv(s, actions);
    var t := Run(s, actions);
    if Chain(t, calls) {
      assert WaitsFor(t, calls[0], calls[1]);
      WaitingIsTrying(t, calls[0], calls[1]);
      ChainAscends(t, calls);
      LessIrreflexive(NextKey(t, calls[0]));
    }
  }

  // ---------------------------------------------------------------- progress

  /** Call c can take a step of its own that is not giving up. */
  ghost predicate CanMove(s: System, c: nat) {
    WellTyped(s) && (Enabled(s, Grab(c)) || Enabled(s, Enter(c)) || Enabled(s, Leave(c)) || Enabled(s, Release(c)))
  }

  /** Call c is waiting for a key that whose lock got lost on the way to or from the server. */
  ghost predicate WaitsForLost(s: System, c: nat) {
    WellTyped(s) && Trying(s, c) && NextKey(s, c) in s.held && (s.held[NextKey(s, c)], NextKey(s, c)) in s.lost
  }

  /** Trying calls below n, none of which tries a later key than call m does. */
  ghost predicate Latest(s: System, m: nat, n: nat)
    requires WellTyped(s)
  {
    Trying(s, m) && forall c | 0 <= c < n && Trying(s, c) :: !Less(NextKey(s, m), NextKey(s, c))
  }

  lemma {:induction false} LatestExists(s: System, n: nat, c: nat)
    requires WellTyped(s) && c < n && Trying(s, c)
    ensures exists m :: Latest(s, m, n)
  {
    hide Ascending, Text.Less, Trying, NextKey;
    var k := n - 1;
    LessIrreflexive(NextKey(s, c));
    if c == k && forall d | 0 <= d < k :: !Trying(s, d) {
      assert Latest(s, c, n);
    } else {
      var d :| 0 <= d < k && Trying(s, d);
      LatestExists(s, k, d);
      var m :| Latest(s, m, k);
      if Trying(s, k) && Less(NextKey(s, m), NextKey(s, k)) {
        LessIrreflexive(NextKey(s, k));
        forall e | 0 <= e < n && Trying(s, e) ensures !Less(NextKey(s, k), NextKey(s, e)) {
          if e != k { LessOrNot(NextKey(s, k), NextKey(s, m), NextKey(s, e)); LessOrNot(NextKey(s, m), NextKey(s, k), NextKey(s, k)); LessOrNot(NextKey(s, e), NextKey(s, m), NextKey(s, k)); }
        }
        assert Latest(s, k, n);
      } else {
        assert Latest(s, m, n);
      }
    }
  }

  /** A call that is neither done nor trying can move. */
  lemma OthersMove(s: System, c: nat)
    requires WellTyped(s) && c < |s.keys| && !Trying(s, c) && !Done(s, c)
    ensures CanMove(s, c)
  {
    hide Ascending;
  }

  /** Among the trying calls one can go on, or its key's owner can, or the key was lost. */
  lemma LatestMoves(s: System, m: nat)
    requires Inv(s) && Latest(s, m, |s.keys|)
    ensures CanMove(s, m) || WaitsForLost(s, m) || exists d :: CanMove(s, d)
  {
    hide Ascending, Text.Less;
    if NextKey(s, m) in s.held {
      var d := s.held[NextKey(s, m)];
      assert WaitsFor(s, m, d);
      if Trying(s, d) {
        WaitsForLater(s, m, d);
      } else if !Done(s, d) {
        OthersMove(s, d);
      }
    }
  }

  /**
   Progress: in every reachable state in which some call is not done, some call can take a proper step, unless a
   call waits for a key with a lost acquire or release, which frees itself by expiry.
   */
  lemma Progress(s: System, actions: seq<Action>, c: nat)
    requires Initial(s) && c < |s.keys| && !Done(Run(s, actions), c)
    ensures var t := Run(s, actions); (exists d :: CanMove(t, d)) || exists d :: WaitsForLost(t, d)
  {
    hide Ascending, Run, Inv, Text.Less, Trying, NextKey, CanMove, WaitsForLost;
    InitialInv(s);
    RunKeepsInv(s, actions);
    var t := Run(s, actions);
    if Trying(t, c) {
      LatestExists(t, |t.keys|, c);
      var m :| Latest(t, m, |t.keys|);
      LatestMoves(t, m);
    } else {
      OthersMove(t, c);
    }
  }

  // ---------------------------------------------------------------- lost acquires

  /** A call whose first acquire loses its reply is done at once, with the key still locked under its token. */
  lemma LostAcquireStaysLocked(s: System, c: nat)
    requires Initial(s) && c < |s.keys| && s.keys[c] != []
    ensures var t := Run(s, [LoseGrab(c)]);
            Done(t, c) && s.keys[c][0] in t.held && t.held[s.keys[c][0]] == c
  {
    hide Text.Less, Ascending;
    var t := Next(s, LoseGrab(c));
    assert [LoseGrab(c)][1..] == [];
    assert Run(t, []) == t;
  }

  /** What a call that is done has left locked stays locked, whatever anyone does, until it expires. */
  lemma {:induction false} LeftLockedUntilExpiry(s: System, c: nat, k: string, actions: seq<Action>)
    requires WellTyped(s) && c < |s.keys| && Done(s, c) && k in s.held && s.held[k] == c
    requires Expire(k) !in actions
    ensures Done(Run(s, actions), c) && k in Run(s, actions).held && Run(s, actions).held[k] == c
    decreases |actions|
  {
    hide Ascending, Next, Enabled;
    if actions != [] && Enabled(s, actions[0]) {
      assert actions[0] in actions;
      StepLeavesLocked(s, c, k, actions[0]);
      LeftLockedUntilExpiry(Next(s, actions[0]), c, k, actions[1..]);
    }
  }

  lemma StepLeavesLocked(s: System, c: nat, k: string, a: Action)
    requires WellTyped(s) && c < |s.keys| && Done(s, c) && k in s.held && s.held[k] == c && Enabled(s, a) && a != Expire(k)
    ensures Done(Next(s, a), c) && k in Next(s, a).held && Next(s, a).held[k] == c
  {
    hide Ascending;
  }
}
