/** The store as one map with version tokens: the contract that the
    SimpleMemcachedSolutionTest cases pin down. A token of 0 asks for an add, any
    other token for a compare-and-set, and a lifetime of 0 makes a write a delete. */
module VersionedStore {

  datatype Status = OK | NOT_FOUND | DATA_CONTENTION | ERROR

  datatype Item = Item(data: string, cas: nat, expires: nat)

  datatype Answer = Answer(status: Status, data: string, cas: nat)

  datatype Store = Store(items: map<string, Item>, nextCas: nat, now: nat) {
    /** Tokens are positive and have all been issued already. */
    ghost predicate Valid() {
      && 0 < nextCas
      && forall k :: k in items ==> 0 < items[k].cas < nextCas
    }

    predicate Live(k: string) {
      k in items && now < items[k].expires
    }

    /** Whether a write of `k` under token `cas` would be taken. */
    predicate Accepts(k: string, cas: nat) {
      if cas == 0 then !Live(k) else Live(k) && items[k].cas == cas
    }
  }

  function Lookup(items: map<string, Item>, now: nat, k: string): Answer {
    if k in items && now < items[k].expires then Answer(OK, items[k].data, items[k].cas)
    else Answer(NOT_FOUND, "", 0)
  }

  function GetData(s: Store, k: string): Answer {
    Lookup(s.items, s.now, k)
  }

  function SetData(s: Store, k: string, data: string, cas: nat, ttl: nat): (Store, Status) {
    if s.Accepts(k, cas)
    then (Store(s.items[k := Item(data, s.nextCas, s.now + ttl)], s.nextCas + 1, s.now), OK)
    else (s, DATA_CONTENTION)
  }

  function DeleteData(s: Store, k: string): Store {
    s.(items := s.items - {k})
  }

  function Elapse(s: Store, d: nat): Store {
    s.(now := s.now + d)
  }

  // ---------- runs of the store ----------

  datatype Op =
    | Put(key: string, data: string, cas: nat, ttl: nat)
    | Remove(key: string)
    | Sleep(d: nat)

  function Do(s: Store, op: Op): Store {
    match op
    case Put(k, data, cas, ttl) => SetData(s, k, data, cas, ttl).0
    case Remove(k) => DeleteData(s, k)
    case Sleep(d) => Elapse(s, d)
  }

  function Exec(s: Store, ops: seq<Op>): Store
    decreases |ops|
  {
    if ops == [] then s else Exec(Do(s, ops[0]), ops[1..])
  }

  /** Operation `i` of the run is a write of `k` under `cas`, and it is taken. */
  predicate Wins(s: Store, ops: seq<Op>, i: nat, k: string, cas: nat)
    requires i < |ops|
  {
    ops[i].Put? && ops[i].key == k && ops[i].cas == cas && Exec(s, ops[..i]).Accepts(k, cas)
  }

  /** The operation replaces or removes what the store holds under `k`. */
  predicate Touches(s: Store, op: Op, k: string) {
    match op
    case Put(key, _, cas, _) => key == k && s.Accepts(k, cas)
    case Remove(key) => key == k
    case Sleep(_) => false
  }

  predicate Untouched(s: Store, ops: seq<Op>, k: string)
    decreases |ops|
  {
    ops == [] || (!Touches(s, ops[0], k) && Untouched(Do(s, ops[0]), ops[1..], k))
  }

  lemma {:induction false} ExecKeepsValid(s: Store, ops: seq<Op>)
    requires s.Valid()
    ensures Exec(s, ops).Valid()
    decreases |ops|
  {
    if ops != [] {
      ExecKeepsValid(Do(s, ops[0]), ops[1..]);
    }
  }

  lemma {:induction false} ExecSplit(s: Store, a: seq<Op>, b: seq<Op>)
    ensures Exec(s, a + b) == Exec(Exec(s, a), b)
    decreases |a|
  {
    if a == [] {
      assert a + b == b;
    } else {
      assert (a + b)[1..] == a[1..] + b;
      ExecSplit(Do(s, a[0]), a[1..], b);
    }
  }

  /** `cas` was issued before now and is no longer the token of `k`, nor can be again. */
  ghost predicate Spent(s: Store, k: string, cas: nat) {
    cas < s.nextCas && (k in s.items ==> cas < s.items[k].cas)
  }

  lemma {:induction false} SpentForever(s: Store, ops: seq<Op>, k: string, cas: nat)
    requires Spent(s, k, cas)
    ensures Spent(Exec(s, ops), k, cas)
    decreases |ops|
  {
    if ops != [] {
      SpentForever(Do(s, ops[0]), ops[1..], k, cas);
    }
  }

  /** Over any run, one token buys at most one write of a key. */
  lemma TokenBuysOneWrite(s: Store, ops: seq<Op>, i: nat, j: nat, k: string, cas: nat)
    requires s.Valid() && cas != 0
    requires i < j < |ops| && Wins(s, ops, i, k, cas)
    ensures !Wins(s, ops, j, k, cas)
  {
    var before := Exec(s, ops[..i]);
    ExecKeepsValid(s, ops[..i]);
    assert ops[i..j][0] == ops[i] && ops[i..j][1..] == ops[i + 1..j];
    assert ops[..j] == ops[..i] + ops[i..j];
    ExecSplit(s, ops[..i], ops[i..j]);
    assert Spent(Do(before, ops[i]), k, cas);
    SpentForever(Do(before, ops[i]), ops[i + 1..j], k, cas);
  }

  lemma {:induction false} UntouchedItem(s: Store, ops: seq<Op>, k: string)
    requires Untouched(s, ops, k)
    ensures k in Exec(s, ops).items <==> k in s.items
    ensures k in s.items ==> Exec(s, ops).items[k] == s.items[k]
    ensures s.now <= Exec(s, ops).now
    decreases |ops|
  {
    if ops != [] {
      UntouchedItem(Do(s, ops[0]), ops[1..], k);
    }
  }

  lemma {:induction false} TouchedToken(s: Store, ops: seq<Op>, k: string)
    requires s.Valid() && k in s.items && !Untouched(s, ops, k)
    ensures Spent(Exec(s, ops), k, s.items[k].cas)
    decreases |ops|
  {
    var next := Do(s, ops[0]);
    if Touches(s, ops[0], k) {
      assert Spent(next, k, s.items[k].cas);
      SpentForever(next, ops[1..], k, s.items[k].cas);
    } else {
      TouchedToken(next, ops[1..], k);
    }
  }

  /** The token a get would give, 0 for a miss, is the only one a set is taken under. Any
      other is answered with contention, an add of a key that is there included, and
      leaves the store as it is. */
  lemma SetNeedsTheToken(s: Store, k: string, data: string, cas: nat, ttl: nat)
    requires s.Valid()
    ensures cas != GetData(s, k).cas ==> SetData(s, k, data, cas, ttl) == (s, DATA_CONTENTION)
    ensures cas == GetData(s, k).cas ==> SetData(s, k, data, cas, ttl).1 == OK
    ensures GetData(s, k).cas == 0 <==> GetData(s, k).status == NOT_FOUND
  {
  }

  /** The time that passes in a run. */
  function Slept(ops: seq<Op>): nat {
    if ops == [] then 0 else (if ops[0].Sleep? then ops[0].d else 0) + Slept(ops[1..])
  }

  lemma {:induction false} ExecClock(s: Store, ops: seq<Op>)
    ensures Exec(s, ops).now == s.now + Slept(ops)
    decreases |ops|
  {
    if ops != [] {
      ExecClock(Do(s, ops[0]), ops[1..]);
    }
  }

  /** A get and then, after any run in between, a set with the token the get returned:
      the set is taken exactly when nobody replaced or removed the value in between and
      it has not expired meanwhile. Otherwise the writer is told of the contention. */
  lemma GetThenSet(s: Store, ops: seq<Op>, k: string, data: string, ttl: nat)
    requires s.Valid() && GetData(s, k).status == OK
    ensures var later := Exec(s, ops);
            var status := SetData(later, k, data, GetData(s, k).cas, ttl).1;
            && (status == OK <==> Untouched(s, ops, k) && s.now + Slept(ops) < s.items[k].expires)
            && (status != OK ==> status == DATA_CONTENTION)
  {
    ExecKeepsValid(s, ops);
    ExecClock(s, ops);
    if Untouched(s, ops, k) {
      UntouchedItem(s, ops, k);
    } else {
      TouchedToken(s, ops, k);
    }
  }

  /** After a get that found nothing (a deleted or expired key included) the writer holds
      token 0, and its set is an add: taken exactly when the key is absent by then, and so
      always when nobody has written it in between. */
  lemma GetNothingThenSet(s: Store, ops: seq<Op>, k: string, data: string, ttl: nat)
    requires s.Valid() && GetData(s, k).status == NOT_FOUND
    ensures var later := Exec(s, ops);
            var status := SetData(later, k, data, GetData(s, k).cas, ttl).1;
            && (status == OK <==> GetData(later, k).status == NOT_FOUND)
            && (Untouched(s, ops, k) ==> status == OK)
  {
    if Untouched(s, ops, k) {
      UntouchedItem(s, ops, k);
    }
  }

  /** What readers get after a taken write, and after a delete, whatever is done to other
      keys and however much time passes, until the key is next touched: the value written
      for as long as it lives, and nothing. */
  lemma ReadBack(s: Store, ops: seq<Op>, k: string, data: string, cas: nat, ttl: nat)
    requires s.Valid()
    ensures var (after, status) := SetData(s, k, data, cas, ttl);
            status == OK && Untouched(after, ops, k) ==>
              GetData(Exec(after, ops), k)
              == if Slept(ops) < ttl then Answer(OK, data, s.nextCas) else Answer(NOT_FOUND, "", 0)
    ensures var after := DeleteData(s, k);
            Untouched(after, ops, k) ==> GetData(Exec(after, ops), k) == Answer(NOT_FOUND, "", 0)
  {
    var (written, deleted) := (SetData(s, k, data, cas, ttl).0, DeleteData(s, k));
    ExecClock(written, ops);
    if Untouched(written, ops, k) {
      UntouchedItem(written, ops, k);
    }
    if Untouched(deleted, ops, k) {
      UntouchedItem(deleted, ops, k);
    }
  }

  /** The client object. One built on a domain that does not resolve answers every
      request with ERROR. */
  class MemcachedStore {
    const resolves: bool
    var items: map<string, Item>
    var nextCas: nat
    var now: nat

    ghost function State(): Store
      reads this
    {
      Store(items, nextCas, now)
    }

    constructor (resolves: bool)
      ensures this.resolves == resolves
      ensures State().Valid() && State().items == map[]
    {
      this.resolves := resolves;
      items, nextCas, now := map[], 1, 0;
    }

    method Get(k: string) returns (answer: Answer)
      ensures answer == if resolves then GetData(State(), k) else Answer(ERROR, "", 0)
    {
      if !resolves {
        return Answer(ERROR, "", 0);
      }
      if k in items && now < items[k].expires {
        return Answer(OK, items[k].data, items[k].cas);
      }
      return Answer(NOT_FOUND, "", 0);
    }

    method Set(k: string, data: string, cas: nat, ttl: nat) returns (status: Status)
      requires State().Valid()
      modifies this
      ensures State().Valid()
      ensures !resolves ==> State() == old(State()) && status == ERROR
      ensures resolves ==> (State(), status) == SetData(old(State()), k, data, cas, ttl)
    {
      if !resolves {
        return ERROR;
      }
      var live := k in items && now < items[k].expires;
      if cas == 0 && live {
        return DATA_CONTENTION;
      }
      if cas != 0 && (!live || items[k].cas != cas) {
        return DATA_CONTENTION;
      }
      items := items[k := Item(data, nextCas, now + ttl)];
      nextCas := nextCas + 1;
      return OK;
    }

    method Delete(k: string) returns (status: Status)
      requires State().Valid()
      modifies this
      ensures State().Valid()
      ensures !resolves ==> State() == old(State()) && status == ERROR
      ensures resolves ==> State() == DeleteData(old(State()), k) && status == OK
    {
      if !resolves {
        return ERROR;
      }
      items := items - {k};
      return OK;
    }

    /** Time goes by; nothing else in the harness moves the store's clock. */
    method Sleep(d: nat)
      modifies this`now
      ensures State() == Elapse(old(State()), d)
    {
      now := now + d;
    }
  }
}
