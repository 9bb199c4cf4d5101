/**
  The ring of recently seen message keys that both gateways use to drop duplicates. Its slots start
  as 0, so the key 0 counts as seen until the ring has been filled once.
  */
module SeenRing {
  type Key = k: int | 0 <= k < 0x1_0000_0000_0000_0000

  function Zeros(n: nat): (z: seq<Key>)
    ensures |z| == n && forall k :: k in z ==> k == 0
  {
    seq(n, _ => 0)
  }

  /** The last `n` of the initial zeros followed by the inserted keys. */
  function Window(log: seq<Key>, n: nat): (w: seq<Key>)
    ensures |w| == n
  {
    (Zeros(n) + log)[|log|..]
  }

  /** The keys that count as seen: the last `n` inserted, and 0 while fewer were. */
  predicate Seen(log: seq<Key>, n: nat, key: Key) {
    (exists q :: 0 <= q < |log| && |log| - n <= q && log[q] == key) || (|log| < n && key == 0)
  }

  lemma {:induction false} WindowSeen(log: seq<Key>, n: nat, key: Key)
    ensures key in Window(log, n) <==> Seen(log, n, key)
  {
    var all, w := Zeros(n) + log, Window(log, n);
    if key in w {
      var k :| 0 <= k < n && w[k] == key;
      var at := k + |log|;
      assert all[at] == key;
      if at >= n { assert log[at - n] == key; } else { assert Zeros(n)[at] in Zeros(n); }
    }
    if q :| 0 <= q < |log| && |log| - n <= q && log[q] == key {
      assert w[q + n - |log|] == all[q + n] == key;
    }
    if |log| < n && key == 0 {
      assert Zeros(n)[|log|] in Zeros(n) && w[0] == all[|log|] == 0;
    }
  }

  lemma {:induction false} WindowSnoc(log: seq<Key>, n: nat, key: Key)
    requires n > 0
    ensures Window(log + [key], n) == Window(log, n)[1..] + [key]
  {
    assert Zeros(n) + (log + [key]) == (Zeros(n) + log) + [key];
  }

  /** The ring read from its oldest slot. */
  function Rotated(keys: seq<Key>, next: nat): seq<Key>
    requires next <= |keys|
  {
    keys[next..] + keys[..next]
  }

  lemma {:induction false} RotatedStep(keys: seq<Key>, next: nat, key: Key)
    requires next < |keys|
    ensures Rotated(keys[next := key], next + 1) == Rotated(keys, next)[1..] + [key]
    ensures next + 1 == |keys| ==> Rotated(keys[next := key], 0) == Rotated(keys[next := key], next + 1)
  {
    var after := keys[next := key];
    assert after[next + 1..] == keys[next..][1..] && after[..next + 1] == keys[..next] + [key];
    if next + 1 == |keys| { assert after[next + 1..] == [] && after[..0] == [] && after[0..] == after[..next + 1]; }
  }

  lemma {:induction false} Wrap(i: nat, n: nat)
    requires i < n
    ensures (i + 1) % n == if i + 1 < n then i + 1 else 0
  {
  }

  class Ring {
    const keys: array<Key>
    var next: nat
    ghost var log: seq<Key>

    ghost predicate Valid()
      reads this, keys
    {
      next < keys.Length && Rotated(keys[..], next) == Window(log, keys.Length)
    }

    constructor (n: nat)
      requires n > 0
      ensures Valid() && keys.Length == n && log == [] && fresh(keys)
    {
      keys := new Key[n](_ => 0);
      next := 0;
      log := [];
    }

    method Contains(key: Key) returns (found: bool)
      requires Valid()
      ensures found == Seen(log, keys.Length, key)
    {
      WindowSeen(log, keys.Length, key);
      assert forall k :: k in Rotated(keys[..], next) <==> k in keys[..next] || k in keys[next..];
      for i := 0 to keys.Length
        invariant forall j :: 0 <= j < i ==> keys[j] != key
      {
        if keys[i] == key {
          assert if i < next then keys[..next][i] == key else keys[next..][i - next] == key;
          return true;
        }
      }
      return false;
    }

    method Insert(key: Key)
      requires Valid()
      modifies this, keys
      ensures Valid() && log == old(log) + [key]
    {
      hide Rotated, Window;
      Wrap(next, keys.Length);
      RotatedStep(keys[..], next, key);
      WindowSnoc(log, keys.Length, key);
      keys[next] := key;
      assert keys[..] == old(keys[..])[old(next) := key];
      next := (next + 1) % keys.Length;
      log := log + [key];
    }
  }

  // ---------------------------------------------------------------------------------------------
  // Inserting only unseen keys

  /** Between two insertions of one key, at least `n` others were inserted. */
  ghost predicate Spread(log: seq<Key>, n: nat) {
    forall a, b :: 0 <= a < b < |log| && log[a] == log[b] ==> b - a > n
  }

  lemma {:induction false} SpreadStep(log: seq<Key>, n: nat, key: Key)
    requires Spread(log, n) && !Seen(log, n, key)
    ensures Spread(log + [key], n)
  {
    var after := log + [key];
    forall a, b | 0 <= a < b < |after| && after[a] == after[b] ensures b - a > n {
      if b == |log| { assert log[a] == key; }
    }
  }
}
