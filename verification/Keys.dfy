/** The fixture's keys: consecutive values of an unsigned counter, printed in decimal. */
module Keys {
  import opened Decimal
  import opened VersionedStore
  import opened Thrash
  import opened ThrashVerdict
  import opened ThrashTest

  /** `unsigned int` has 32 bits. */
  const WRAP: nat := 0x1_0000_0000

  /** The `n`-th key issued from a given seed. */
  function KeyAt(seed: nat, n: nat): string {
    Print((seed + n) % WRAP)
  }

  lemma SameResidue(a: nat, k: int)
    requires 0 <= a + WRAP * k
    ensures (a + WRAP * k) % WRAP == a % WRAP
  {
    assert a + WRAP * k == WRAP * (a / WRAP + k) + a % WRAP;
  }

  lemma SmallResidue(a: nat)
    requires a < 2 * WRAP
    ensures a % WRAP == if a < 4294967296 then a else a - 4294967296
  {
    if WRAP <= a {
      SameResidue(a - WRAP, 1);
    }
  }

  /** The keys are the numbers from the seed up in decimal, and start over at 0 after 2^32 - 1. */
  lemma KeysCountUp(seed: nat, n: nat)
    requires seed < 4294967296 && n < 4294967296
    ensures KeyAt(seed, n) == Print(if seed + n < 4294967296 then seed + n else seed + n - 4294967296)
  {
    SmallResidue(seed + n);
  }

  /** The counter wraps around. */
  lemma NextResidue(a: nat)
    ensures (a % WRAP + 1) % WRAP == (a + 1) % WRAP
  {
    assert a + 1 == a % WRAP + 1 + WRAP * (a / WRAP);
    SameResidue(a % WRAP + 1, a / WRAP);
  }

  /** Two issues give the same key exactly when they are a whole number of wraps apart. */
  lemma KeysCollide(seed: nat, i: nat, j: nat)
    ensures KeyAt(seed, i) == KeyAt(seed, j) <==> exists k: int :: j == i + WRAP * k
  {
    var (a, b) := (seed + i, seed + j);
    if KeyAt(seed, i) == KeyAt(seed, j) {
      PrintInjective(a % WRAP, b % WRAP);
      assert j == i + WRAP * (b / WRAP - a / WRAP);
    }
    if k: int :| j == i + WRAP * k {
      SameResidue(a, k);
    }
  }

  lemma CloseKeysDiffer(seed: nat, i: nat, j: nat)
    requires i < j < i + WRAP
    ensures KeyAt(seed, i) != KeyAt(seed, j)
  {
    KeysCollide(seed, i, j);
  }

  function KeysFrom(seed: nat, first: nat, count: nat): seq<string> {
    seq(count, i requires 0 <= i < count => KeyAt(seed, first + i))
  }

  /** A run of issues never repeats a key exactly when it is no longer than the counter's range. */
  lemma KeysAreDistinct(seed: nat, first: nat, count: nat, n: nat)
    ensures Plan(KeysFrom(seed, first, count), n).Distinct() <==> count <= 4294967296
  {
    var keys := KeysFrom(seed, first, count);
    forall i, j | 0 <= i < j < count
      ensures count <= WRAP ==> keys[i] != keys[j]
    {
      if count <= WRAP {
        CloseKeysDiffer(seed, first + i, first + j);
      }
    }
    if WRAP < count {
      KeysCollide(seed, first, first + WRAP);
      assert first + WRAP == first + WRAP * 1;
      assert keys[0] == keys[WRAP];
    }
  }

  lemma NewKeysAreFresh(s: Store, seed: nat, used: nat, count: nat)
    requires used + count < WRAP
    requires forall k :: k in s.items ==> exists i: nat :: i < used && k == KeyAt(seed, i)
    ensures forall j :: 0 <= j < count ==> !s.Live(KeysFrom(seed, used, count)[j])
  {
    forall j | 0 <= j < count
      ensures KeysFrom(seed, used, count)[j] !in s.items
    {
      forall i: nat | i < used
        ensures KeyAt(seed, used + j) != KeyAt(seed, i)
      {
        CloseKeysDiffer(seed, i, used + j);
      }
    }
  }

  /** The fixture's counter and current key. */
  class Fixture {
    var nextKey: nat
    var key: string
    ghost const seed: nat
    ghost var issued: nat

    ghost predicate Valid()
      reads this
    {
      nextKey == (seed + issued) % WRAP && 0 < issued && key == KeyAt(seed, issued - 1)
    }

    /** The suite's seed, and the key of its first test. */
    constructor (seed: nat)
      requires seed < WRAP
      ensures Valid() && this.seed == seed && issued == 1 && key == Print(seed)
    {
      this.seed, issued := seed, 1;
      key, nextKey := Print(seed), (seed + 1) % WRAP;
      SmallResidue(seed);
    }

    method GetNewKey()
      requires Valid()
      modifies this
      ensures Valid() && issued == old(issued) + 1 && key == Print(old(nextKey))
    {
      NextResidue(seed + issued);
      key := Print(nextKey);
      nextKey := (nextKey + 1) % WRAP;
      issued := issued + 1;
    }

    /** The thrash test in its fixture: the keys are the current one and the next ones
        issued, and the store may hold any keys issued before. As long as the suite issues
        no more keys than the counter has values, the keys are fresh and the test's verdict
        stands. */
    method ThrashTest(store: MemcachedStore, count: nat, threads: nat, n: nat, failing: nat -> bool)
      returns (passed: bool, errors: nat, ghost trace: seq<Action>)
      requires Valid() && store.resolves && store.State().Valid()
      requires forall k :: k in store.State().items ==> exists i: nat :: i < issued - 1 && k == KeyAt(seed, i)
      requires issued + count <= WRAP
      modifies this, store
      ensures Valid() && issued == old(issued) + count
      ensures Tested(Plan(KeysFrom(seed, old(issued) - 1, count), n), old(store.State()), threads, trace, store.State())
      ensures errors == Errors(trace) == Failures(failing, Sets(trace))
      ensures passed <==> AllPass(Plan(KeysFrom(seed, old(issued) - 1, count), n), store.State(), threads)
      ensures passed <==> errors == 0 && (count == 0 || 0 < n * threads)
      ensures (forall i :: !failing(i)) ==> errors == 0
    {
      var keys: seq<string> := [];
      for i := 0 to count
        invariant Valid() && issued == old(issued) + i && unchanged(store)
        invariant keys == KeysFrom(seed, old(issued) - 1, i)
      {
        keys := keys + [key];
        GetNewKey();
      }
      KeysAreDistinct(seed, old(issued) - 1, count, n);
      NewKeysAreFresh(store.State(), seed, old(issued) - 1, count);
      passed, errors, trace := RunThrashTest(store, keys, threads, n, failing);
    }
  }
}
