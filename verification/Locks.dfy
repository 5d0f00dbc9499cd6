/** One caller of the multi-key lock: core/shared/infra/lock/lock_wrapper.go over lock.go. */
module Locks {
  import opened Text

  // ---------------------------------------------------------------- keys

  /** Each key is below the next in the order of strings; in particular no key occurs twice. */
  predicate Ascending(keys: seq<string>) {
    forall i, j | 0 <= i < j < |keys| :: Less(keys[i], keys[j])
  }

  function KeySet(keys: seq<string>): set<string> { set k | k in keys }

  predicate Sorted(keys: seq<string>) {
    forall i, j | 0 <= i < j < |keys| :: !Less(keys[j], keys[i])
  }

  lemma LessOrNot(a: string, b: string, c: string)
    ensures Less(a, b) ==> !Less(b, a)
    ensures !Less(b, a) && !Less(c, b) ==> !Less(c, a)
  {
    LessTotal(a, b);
    LessTotal(b, c);
    if Less(a, b) && Less(b, a) { LessTransitive(a, b, a); LessIrreflexive(a); }
    if Less(a, b) && Less(b, c) { LessTransitive(a, b, c); }
    if Less(c, a) {
      if Less(a, b) { LessTransitive(c, a, b); }
      if Less(b, c) { LessTransitive(b, c, a); }
      if a == b == c { LessIrreflexive(a); }
    }
  }

  function Insert(k: string, keys: seq<string>): (r: seq<string>)
    requires Sorted(keys)
    ensures Sorted(r) && multiset(r) == multiset(keys) + multiset{k}
  {
    if keys == [] then [k]
    else if Less(keys[0], k) then
      var rest := Insert(k, keys[1..]);
      assert keys == [keys[0]] + keys[1..];
      assert Sorted([keys[0]] + rest) by { FrontStays(keys[0], keys[1..], k, rest); }
      [keys[0]] + rest
    else
      assert Sorted([k] + keys) by { FrontGoesFirst(k, keys); }
      [k] + keys
  }

  lemma FrontStays(front: string, keys: seq<string>, k: string, rest: seq<string>)
    requires Sorted(rest) && multiset(rest) == multiset(keys) + multiset{k}
    requires Less(front, k) && forall j | 0 <= j < |keys| :: !Less(keys[j], front)
    ensures Sorted([front] + rest)
  {
    forall j | 0 <= j < |rest| ensures !Less(rest[j], front) {
      assert rest[j] in multiset(rest);
      assert rest[j] in keys || rest[j] == k;
      LessOrNot(front, k, k);
    }
  }

  lemma FrontGoesFirst(k: string, keys: seq<string>)
    requires Sorted(keys) && keys != [] && !Less(keys[0], k)
    ensures Sorted([k] + keys)
  {
    forall j | 0 <= j < |keys| ensures !Less(keys[j], k) {
      if j > 0 { LessOrNot(k, keys[0], keys[j]); }
    }
  }

  /** sort.Strings */
  function SortStrings(keys: seq<string>): (r: seq<string>)
    ensures Sorted(r) && multiset(r) == multiset(keys)
  {
    if keys == [] then [] else
      assert keys == [keys[0]] + keys[1..];
      Insert(keys[0], SortStrings(keys[1..]))
  }

  lemma SortedDistinctAscends(keys: seq<string>, was: seq<string>)
    requires Sorted(keys) && multiset(keys) == multiset(was)
    requires forall i, j | 0 <= i < j < |was| :: was[i] != was[j]
    ensures Ascending(keys) && KeySet(keys) == KeySet(was)
  {
    forall k ensures k in keys <==> k in was { assert k in multiset(keys) <==> k in multiset(was); }
    OncePerKey(was);
    forall i, j | 0 <= i < j < |keys| ensures Less(keys[i], keys[j]) {
      LessTotal(keys[i], keys[j]);
      if keys[i] == keys[j] { TwicePerKey(keys, i, j); }
    }
  }

  lemma {:induction false} OncePerKey(keys: seq<string>)
    requires forall i, j | 0 <= i < j < |keys| :: keys[i] != keys[j]
    ensures forall k | k in keys :: multiset(keys)[k] == 1
  {
    if keys != [] {
      OncePerKey(keys[1..]);
      assert keys == [keys[0]] + keys[1..];
    }
  }

  lemma TwicePerKey(keys: seq<string>, i: nat, j: nat)
    requires i < j < |keys| && keys[i] == keys[j]
    ensures multiset(keys)[keys[i]] >= 2
  {
    var a, b := keys[..j], keys[j..];
    assert keys == a + b;
    assert a[i] == keys[i] && b[0] == keys[j];
    assert a[i] in multiset(a) && b[0] in multiset(b);
  }

  /** An ascending list is determined by its elements. */
  lemma {:induction false} AscendingIsUnique(a: seq<string>, b: seq<string>)
    requires Ascending(a) && Ascending(b) && forall k :: k in a <==> k in b
    ensures a == b
  {
    if a == [] {
      assert forall i | 0 <= i < |b| :: b[i] in b;
    } else {
      assert a[0] in b;
      assert b[0] in a;
      HeadIsLeast(a, b[0]);
      HeadIsLeast(b, a[0]);
      LessOrNot(a[0], b[0], b[0]);
      forall k ensures k in a[1..] <==> k in b[1..] {
        LessIrreflexive(a[0]);
        assert k in a <==> k == a[0] || k in a[1..];
        assert k in b <==> k == b[0] || k in b[1..];
        assert a[0] !in a[1..] && b[0] !in b[1..] by { forall i | 0 < i < |a| ensures a[i] != a[0] {} forall i | 0 < i < |b| ensures b[i] != b[0] {} }
      }
      AscendingIsUnique(a[1..], b[1..]);
      assert a == [a[0]] + a[1..] && b == [b[0]] + b[1..];
    }
  }

  lemma HeadIsLeast(keys: seq<string>, k: string)
    requires Ascending(keys) && k in keys
    ensures keys[0] == k || Less(keys[0], k)
  {
  }

  function Prefixed(prefix: string, key: string): string { if prefix == "" then key else prefix + ":" + key }

  /** The keys a caller ends up locking. */
  function Wanted(keys: seq<string>, prefix: string): set<string> { set k | k in keys && k != "" :: Prefixed(prefix, k) }

  /** Prefixing keeps different keys apart. */
  lemma PrefixIsInjective(prefix: string, a: string, b: string)
    ensures Prefixed(prefix, a) == Prefixed(prefix, b) <==> a == b
  {
    if prefix != "" && Prefixed(prefix, a) == Prefixed(prefix, b) {
      var n := |prefix| + 1;
      assert a == Prefixed(prefix, a)[n..] && b == Prefixed(prefix, b)[n..];
    }
  }

  lemma WantedStep(keys: seq<string>, i: nat, prefix: string)
    requires i < |keys|
    ensures Wanted(keys[..i + 1], prefix) == Wanted(keys[..i], prefix) + if keys[i] == "" then {} else {Prefixed(prefix, keys[i])}
  {
    assert keys[..i + 1] == keys[..i] + [keys[i]];
    hide Prefixed;
  }

  lemma SetOfPush(s: seq<string>, k: string)
    ensures KeySet(s + [k]) == KeySet(s) + {k}
  {
  }

  /** normalizeKeys: the distinct non-blank keys, prefixed, in strictly ascending order */
  method NormalizeKeys(keys: seq<string>, prefix: string) returns (result: seq<string>)
    ensures Ascending(result) && KeySet(result) == Wanted(keys, prefix)
  {
    hide Text.Less, Sorted, Prefixed;
    if |keys| == 0 {
      return [];
    }
    result := [];
    var seen: set<string> := {};
    for i := 0 to |keys|
      invariant seen == KeySet(result) == Wanted(keys[..i], prefix)
      invariant forall a, b | 0 <= a < b < |result| :: result[a] != result[b]
    {
      WantedStep(keys, i, prefix);
      var k := keys[i];
      if k == "" { continue; }
      k := Prefixed(prefix, k);
      if k in seen { continue; }
      assert k !in result;
      SetOfPush(result, k);
      seen := seen + {k};
      result := result + [k];
    }
    assert keys[..|keys|] == keys;
    SortedDistinctAscends(SortStrings(result), result);
    result := SortStrings(result);
  }

  // ---------------------------------------------------------------- the lock server as one caller sees it

  datatype Op = Acquired(key: string) | Refused(key: string) | Ran | Released(key: string)

  datatype Reply<T> = Value(value: T) | Failed

  /** How a call of the guarded function ends; the deferred release runs in either case. */
  datatype Ending<T> = Returned(reply: Reply<T>) | Panicked

  /** The key is locked under this token. */
  predicate Mine(held: map<string, string>, token: string, key: string) { key in held && held[key] == token }

  /** What becomes of one request to the server. */
  datatype Fault = Arrives | NeverArrives | ReplyLost

  /**
   One request: what the other callers and expiry make of the server's map just before it, what becomes of it, and
   whether the client reports a busy key as an error.
   */
  datatype Attempt = Attempt(others: map<string, string>, fault: Fault, busyFails: bool)

  /** How the requests of one WithLocks call fare, key by key. */
  datatype Requests = Requests(acquires: map<string, seq<Attempt>>, releases: map<string, Attempt>)

  /** The map as others leave it: they lock nothing under a token that is not theirs. */
  function Around(held: map<string, string>, token: string, others: map<string, string>): (after: map<string, string>)
    ensures forall k :: Mine(after, token, k) ==> Mine(held, token, k)
    ensures forall k, t | t != token :: Mine(after, t, k) <==> Mine(others, t, k)
  {
    map k | k in others && (others[k] == token ==> Mine(held, token, k)) :: others[k]
  }

  /** Another caller holds the key when the request comes. */
  predicate Busy(a: Attempt, key: string, token: string) { key in a.others && a.others[key] != token }

  /** The key is acquired: some request arrives and finds it free, and all before it arrived, found it busy and could be repeated. */
  predicate Gets(attempts: seq<Attempt>, key: string, token: string) {
    && attempts != [] && attempts[0].fault.Arrives?
    && (Busy(attempts[0], key, token) ==> !attempts[0].busyFails && Gets(attempts[1..], key, token))
  }

  lemma {:induction false} GetsExactly(attempts: seq<Attempt>, key: string, token: string)
    ensures Gets(attempts, key, token) <==>
              exists n | 0 <= n < |attempts| ::
                && attempts[n].fault.Arrives? && !Busy(attempts[n], key, token)
                && forall i | 0 <= i < n :: attempts[i].fault.Arrives? && Busy(attempts[i], key, token) && !attempts[i].busyFails
  {
    if attempts != [] {
      var rest := attempts[1..];
      GetsExactly(rest, key, token);
      if Gets(attempts, key, token) && Busy(attempts[0], key, token) {
        var n :| 0 <= n < |rest| && rest[n].fault.Arrives? && !Busy(rest[n], key, token)
                 && forall i | 0 <= i < n :: rest[i].fault.Arrives? && Busy(rest[i], key, token) && !rest[i].busyFails;
        forall i | 0 <= i < n + 1 ensures attempts[i].fault.Arrives? && Busy(attempts[i], key, token) && !attempts[i].busyFails {
          if i > 0 { assert attempts[i] == rest[i - 1]; }
        }
        assert attempts[n + 1] == rest[n];
      }
      if n :| 0 <= n < |attempts| && attempts[n].fault.Arrives? && !Busy(attempts[n], key, token)
              && forall i | 0 <= i < n :: attempts[i].fault.Arrives? && Busy(attempts[i], key, token) && !attempts[i].busyFails
      {
        if n > 0 {
          assert rest[n - 1] == attempts[n];
          assert forall i | 0 <= i < n - 1 :: rest[i] == attempts[i + 1];
        }
      }
    }
  }

  /** releaseLockScript */
  function CompareAndDelete(held: map<string, string>, key: string, token: string): (after: map<string, string>)
    ensures !Mine(after, token, key)
    ensures forall k, t | t != token || k != key :: Mine(after, t, k) <==> Mine(held, t, k)
  {
    if Mine(held, token, key) then held - {key} else held
  }

  class LockServer {
    var held: map<string, string>
    var trace: seq<Op>
    /** keys for which an acquire or a release reported an error */
    var lost: set<string>

    /**
     AcquireLock: the key is tried until it is had, the attempts before the timeout are used up, or a request fails. A
     failed request may have locked the key all the same.
     */
    method AcquireLock(key: string, token: string, attempts: seq<Attempt>) returns (r: Reply<bool>)
      requires !Mine(held, token, key)
      modifies this
      ensures r == if Gets(attempts, key, token) then Value(true) else Failed
      ensures trace == old(trace) + [if r.Value? then Acquired(key) else Refused(key)]
      ensures lost == if r.Value? then old(lost) else old(lost) + {key}
      ensures r.Value? ==> Mine(held, token, key)
      ensures r.Failed? && Mine(held, token, key) ==> exists a :: a in attempts && a.fault.ReplyLost?
      ensures forall k :: Mine(held, token, k) ==> Mine(old(held), token, k) || k == key
    {
      for i := 0 to |attempts|
        invariant trace == old(trace) && lost == old(lost) && !Mine(held, token, key)
        invariant forall k :: Mine(held, token, k) ==> Mine(old(held), token, k)
        invariant Gets(attempts, key, token) <==> Gets(attempts[i..], key, token)
      {
        var a := attempts[i];
        assert attempts[i..][0] == a && attempts[i..][1..] == attempts[i + 1..];
        held := Around(held, token, a.others);
        if a.fault.NeverArrives? { break; }
        if key !in held {
          held := held[key := token];
          if a.fault.ReplyLost? {
            assert a in attempts;
            break;
          }
          trace := trace + [Acquired(key)];
          return Value(true);
        }
        if a.fault.ReplyLost? || a.busyFails { break; }
      }
      trace := trace + [Refused(key)];
      lost := lost + {key};
      return Failed;
    }

    /** ReleaseLock: a request that fails may have been carried out or not. */
    method ReleaseLock(key: string, token: string, a: Attempt) returns (r: Reply<bool>)
      modifies this
      ensures trace == old(trace) + [Released(key)]
      ensures r.Value? <==> a.fault.Arrives?
      ensures r.Value? ==> r.value == Mine(Around(old(held), token, a.others), token, key)
      ensures held == if a.fault.NeverArrives? then Around(old(held), token, a.others)
                      else CompareAndDelete(Around(old(held), token, a.others), key, token)
      ensures lost == if r == Failed then old(lost) + {key} else old(lost)
    {
      trace := trace + [Released(key)];
      held := Around(held, token, a.others);
      var hit := Mine(held, token, key);
      if !a.fault.NeverArrives? { held := CompareAndDelete(held, key, token); }
      if !a.fault.Arrives? {
        lost := lost + {key};
        return Failed;
      }
      return Value(hit);
    }

    function Acquires(keys: seq<string>): (t: seq<Op>)
      ensures |t| == |keys|
    {
      seq(|keys|, i requires 0 <= i < |keys| => Acquired(keys[i]))
    }

    function Releases(keys: seq<string>): (t: seq<Op>)
      ensures |t| == |keys|
    {
      seq(|keys|, i requires 0 <= i < |keys| => Released(keys[|keys| - 1 - i]))
    }

    /** The requests made for one key. */
    function AcquiresOf(env: Requests, key: string): seq<Attempt> { if key in env.acquires then env.acquires[key] else [] }

    function ReleaseOf(env: Requests, key: string): Attempt {
      if key in env.releases then env.releases[key] else Attempt(map[], Arrives, false)
    }

    /** release: the acquired keys in reverse */
    method ReleaseAll(keys: seq<string>, token: string, env: Requests, ghost rest: set<string>)
      requires forall k :: Mine(held, token, k) ==> k in keys || k in rest
      modifies this
      ensures trace == old(trace) + Releases(keys)
      ensures forall k :: Mine(held, token, k) ==> k in rest || (k in keys && !ReleaseOf(env, k).fault.Arrives?)
    {
      var i := |keys|;
      while i > 0
        invariant 0 <= i <= |keys|
        invariant trace == old(trace) + Releases(keys)[..|keys| - i]
        invariant forall k :: Mine(held, token, k) ==> k in keys[..i] || k in rest || (k in keys && !ReleaseOf(env, k).fault.Arrives?)
      {
        i := i - 1;
        var _ := ReleaseLock(keys[i], token, ReleaseOf(env, keys[i]));
        assert keys[..i + 1] == keys[..i] + [keys[i]];
      }
      assert Releases(keys)[..|keys|] == Releases(keys);
    }

    /**
     WithLocks, for a function that ends as `fn` says and requests that fare as `env` says. The keys are acquired in
     strictly ascending order; the function runs if and only if every one of them is had; and whichever way the call
     ends, exactly the acquired keys are released, in reverse. Nothing stays locked under the caller's token but keys
     whose release failed, and the key that was not had if the reply to it was lost.
     */
    method WithLocks<T>(keys: seq<string>, prefix: string, token: string, env: Requests, fn: Ending<T>)
      returns (r: Ending<T>, ran: bool)
      requires forall k :: !Mine(held, token, k)
      modifies this
      ensures r == if ran then fn else Returned(Failed)
      ensures ran <==> forall k | k in Wanted(keys, prefix) :: Gets(AcquiresOf(env, k), k, token)
      ensures Wanted(keys, prefix) == {} ==> trace == old(trace) + [Ran]
      ensures exists sorted: seq<string>, n: nat ::
                && Ascending(sorted) && KeySet(sorted) == Wanted(keys, prefix) && n <= |sorted|
                && (ran <==> n == |sorted|)
                && trace == old(trace) + Acquires(sorted[..n]) + [if ran then Ran else Refused(sorted[n])] + Releases(sorted[..n])
                && forall k :: Mine(held, token, k) ==>
                     || (k in sorted[..n] && !ReleaseOf(env, k).fault.Arrives?)
                     || (!ran && k == sorted[n] && exists a :: a in AcquiresOf(env, k) && a.fault.ReplyLost?)
    {
      hide Ascending, Gets;
      var sorted := NormalizeKeys(keys, prefix);
      if |sorted| == 0 {
        trace := trace + [Ran];
        assert trace == old(trace) + Acquires(sorted[..0]) + [Ran] + Releases(sorted[..0]);
        return fn, true;
      }
      assert Wanted(keys, prefix) != {} by { assert sorted[0] in KeySet(sorted); }
      var n := 0;
      while n < |sorted|
        invariant 0 <= n <= |sorted|
        invariant trace == old(trace) + Acquires(sorted[..n])
        invariant forall k | k in sorted[..n] :: Gets(AcquiresOf(env, k), k, token)
        invariant forall k :: Mine(held, token, k) ==> k in sorted[..n]
      {
        NotAmongEarlier(sorted, n);
        var locked := AcquireLock(sorted[n], token, AcquiresOf(env, sorted[n]));
        if locked != Value(true) {
          assert sorted[n] in KeySet(sorted);
          ghost var rest := if Mine(held, token, sorted[n]) then {sorted[n]} else {};
          ReleaseAll(sorted[..n], token, env, rest);
          assert trace == old(trace) + Acquires(sorted[..n]) + [Refused(sorted[n])] + Releases(sorted[..n]);
          return Returned(Failed), false;
        }
        assert sorted[..n + 1] == sorted[..n] + [sorted[n]];
        assert Acquires(sorted[..n + 1]) == Acquires(sorted[..n]) + [Acquired(sorted[n])];
        n := n + 1;
      }
      assert sorted[..n] == sorted;
      assert forall k | k in Wanted(keys, prefix) :: k in sorted by { assert forall k | k in KeySet(sorted) :: k in sorted; }
      trace := trace + [Ran];
      ReleaseAll(sorted[..n], token, env, {});
      assert trace == old(trace) + Acquires(sorted[..n]) + [Ran] + Releases(sorted[..n]);
      return fn, true;
    }
  }

  lemma NotAmongEarlier(keys: seq<string>, n: nat)
    requires Ascending(keys) && n < |keys|
    ensures keys[n] !in keys[..n]
  {
    hide Text.Less;
    LessIrreflexive(keys[n]);
  }
}
