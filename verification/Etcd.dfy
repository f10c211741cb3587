/** A linearizable key store with one global revision, as the etcd cluster offers it.

The history of the store is the log of its events, and the event at index i is the one that created
revision i + 1. Everything a client can read is a function of the log.
*/
module Etcd {

  datatype Event<+V> = Put(key: string, value: V) | Delete(key: string)

  /** Revision of the newest event about a key, or 0 when there is none. */
  function LastRev<V>(log: seq<Event<V>>, key: string): (r: nat)
    ensures r <= |log|
    ensures r > 0 ==> log[r - 1].key == key
    ensures forall i | r <= i < |log| :: log[i].key != key
  {
    if log == [] then 0
    else if log[|log| - 1].key == key then |log|
    else LastRev(log[..|log| - 1], key)
  }

  /** A key exists when its newest event is a put. */
  predicate Exists<V>(log: seq<Event<V>>, key: string) {
    var r := LastRev(log, key);
    r > 0 && log[r - 1].Put?
  }

  /** The value of a key that exists. */
  function Value<V>(log: seq<Event<V>>, key: string): V
    requires Exists(log, key)
  {
    log[LastRev(log, key) - 1].value
  }

  /** The key exists and holds exactly this value. */
  predicate Holds<V(==)>(log: seq<Event<V>>, key: string, value: V) {
    Exists(log, key) && Value(log, key) == value
  }

  /** LastRev is the only number with the two properties in its contract. */
  lemma LastRevIs<V>(log: seq<Event<V>>, key: string, r: nat)
    requires r <= |log|
    requires r > 0 ==> log[r - 1].key == key
    requires forall i | r <= i < |log| :: log[i].key != key
    ensures LastRev(log, key) == r
  {
  }

  /** What one more event does to every key: only the key it names changes. */
  lemma Append<V>(log: seq<Event<V>>, e: Event<V>, key: string)
    ensures LastRev(log + [e], key) == if e.key == key then |log| + 1 else LastRev(log, key)
    ensures Exists(log + [e], key) <==> if e.key == key then e.Put? else Exists(log, key)
    ensures Exists(log + [e], key) ==>
              Value(log + [e], key) == if e.key == key then e.value else Value(log, key)
  {
    LastRevIs(log + [e], key, if e.key == key then |log| + 1 else LastRev(log, key));
  }

  /** Looking at a prefix that contains the newest event shows the current state of the key. */
  lemma PrefixLastRev<V>(log: seq<Event<V>>, key: string, n: nat)
    requires n <= |log|
    ensures LastRev(log[..n], key) <= LastRev(log, key)
    ensures LastRev(log, key) <= n ==> LastRev(log[..n], key) == LastRev(log, key)
    ensures LastRev(log[..n], key) == LastRev(log, key) || LastRev(log, key) > n
  {
    var r := LastRev(log, key);
    var p := LastRev(log[..n], key);
    if r <= n {
      LastRevIs(log[..n], key, r);
    }
  }
}
