/** Logs in which every entry carries its own hash and the hash of the entry before it. The ledger,
    the transition log and the agent-loop ledger differ only in the names of the two fields. */
module HashChain {
  import opened Json

  const GENESIS: string := "GENESIS"

  /** A hash of JSON objects; SHA-256 over canonical JSON in the original. */
  type Hash = Object -> string

  /** The entry's own hash field holds the hash of the rest of the entry. */
  predicate Sealed(entry: Object, hashKey: string, hash: Hash) {
    Get(entry, hashKey) == Str(hash(entry - {hashKey}))
  }

  /** An object with its own hash added under `key`. */
  function Seal(o: Object, key: string, hash: Hash): Object {
    o[key := Str(hash(o - {key}))]
  }

  lemma {:induction false} SealIsSealed(o: Object, key: string, hash: Hash)
    ensures Sealed(Seal(o, key, hash), key, hash)
    ensures forall k :: k != key ==> Get(Seal(o, key, hash), k) == Get(o, k)
    ensures Seal(o, key, hash) - {key} == o - {key}
  {
    assert Seal(o, key, hash) - {key} == o - {key};
  }

  /** The hash of the entry before position `i`. */
  function Before(log: seq<Object>, i: nat, hashKey: string): Json
    requires i <= |log|
  {
    if i == 0 then Str(GENESIS) else Get(log[i - 1], hashKey)
  }

  function TailHash(log: seq<Object>, hashKey: string): Json {
    Before(log, |log|, hashKey)
  }

  predicate EntryLinked(log: seq<Object>, i: nat, previousKey: string, hashKey: string, hash: Hash)
    requires i < |log|
  {
    Sealed(log[i], hashKey, hash) && Get(log[i], previousKey) == Before(log, i, hashKey)
  }

  ghost predicate Linked(log: seq<Object>, previousKey: string, hashKey: string, hash: Hash) {
    forall i :: 0 <= i < |log| ==> EntryLinked(log, i, previousKey, hashKey, hash)
  }

  /** No entry hashes to the word that stands before the first entry. */
  ghost predicate AvoidsGenesis(log: seq<Object>, hashKey: string) {
    forall i :: 0 <= i < |log| ==> Get(log[i], hashKey) != Str(GENESIS)
  }

  ghost predicate NeverGenesis(hash: Hash) {
    forall o :: hash(o) != GENESIS
  }

  /** The hash tells the entries of the two logs apart. */
  ghost predicate TellsEntriesApart(a: seq<Object>, b: seq<Object>, hashKey: string, hash: Hash) {
    forall i, j :: 0 <= i < |a| && 0 <= j < |b| ==> TellsApart(hash, a[i] - {hashKey}, b[j] - {hashKey})
  }

  lemma {:induction false} SealedEntriesEqual(a: Object, b: Object, hashKey: string, hash: Hash)
    requires TellsApart(hash, a - {hashKey}, b - {hashKey}) && Sealed(a, hashKey, hash) && Sealed(b, hashKey, hash)
    requires Get(a, hashKey) == Get(b, hashKey)
    ensures a == b
  {
    assert a - {hashKey} == b - {hashKey};
    assert a == (a - {hashKey})[hashKey := a[hashKey]];
    assert b == (b - {hashKey})[hashKey := b[hashKey]];
  }

  lemma {:induction false} SplitLast<T>(log: seq<T>)
    requires log != []
    ensures log == log[..|log| - 1] + [log[|log| - 1]]
  {
  }

  /** Equal tails mean equal last entries, and the logs before them have equal tails again. */
  lemma {:induction false} EqualTailsStepBack(a: seq<Object>, b: seq<Object>, previousKey: string, hashKey: string,
                                              hash: Hash)
    requires TellsEntriesApart(a, b, hashKey, hash) && a != [] && b != []
    requires Linked(a, previousKey, hashKey, hash) && Linked(b, previousKey, hashKey, hash)
    requires TailHash(a, hashKey) == TailHash(b, hashKey)
    ensures a[|a| - 1] == b[|b| - 1]
    ensures Before(a, |a| - 1, hashKey) == Before(b, |b| - 1, hashKey)
  {
    assert EntryLinked(a, |a| - 1, previousKey, hashKey, hash) && EntryLinked(b, |b| - 1, previousKey, hashKey, hash);
    SealedEntriesEqual(a[|a| - 1], b[|b| - 1], hashKey, hash);
  }

  /** The tail hash pins the whole log: no edit, deletion, insertion or reordering behind an
      unchanged tail survives verification. */
  lemma {:induction false} TailPinsLog(a: seq<Object>, b: seq<Object>, previousKey: string, hashKey: string, hash: Hash)
    requires TellsEntriesApart(a, b, hashKey, hash)
    requires Linked(a, previousKey, hashKey, hash) && Linked(b, previousKey, hashKey, hash)
    requires AvoidsGenesis(a, hashKey) && AvoidsGenesis(b, hashKey)
    requires TailHash(a, hashKey) == TailHash(b, hashKey)
    ensures a == b
    decreases |a|
  {
    if a != [] && b != [] {
      var m, n := |a| - 1, |b| - 1;
      EqualTailsStepBack(a, b, previousKey, hashKey, hash);
      PrefixLinked(a, m, previousKey, hashKey, hash);
      PrefixLinked(b, n, previousKey, hashKey, hash);
      TailPinsLog(a[..m], b[..n], previousKey, hashKey, hash);
      SplitLast(a);
      SplitLast(b);
    }
  }

  lemma {:induction false} PrefixLinked(log: seq<Object>, n: nat, previousKey: string, hashKey: string, hash: Hash)
    requires n <= |log| && Linked(log, previousKey, hashKey, hash)
    ensures Linked(log[..n], previousKey, hashKey, hash)
    ensures TailHash(log[..n], hashKey) == Before(log, n, hashKey)
    ensures AvoidsGenesis(log, hashKey) ==> AvoidsGenesis(log[..n], hashKey)
  {
    forall i | 0 <= i < n ensures EntryLinked(log[..n], i, previousKey, hashKey, hash) {
      assert EntryLinked(log, i, previousKey, hashKey, hash);
    }
  }

  lemma {:induction false} LinkedSnoc(log: seq<Object>, entry: Object, previousKey: string, hashKey: string, hash: Hash)
    requires Linked(log, previousKey, hashKey, hash) && Sealed(entry, hashKey, hash)
    requires Get(entry, previousKey) == TailHash(log, hashKey)
    ensures Linked(log + [entry], previousKey, hashKey, hash)
  {
    var longer := log + [entry];
    forall i | 0 <= i < |longer| ensures EntryLinked(longer, i, previousKey, hashKey, hash) {
      if i < |log| { assert EntryLinked(log, i, previousKey, hashKey, hash); }
    }
  }
}
