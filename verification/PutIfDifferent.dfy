/** setIfDifferent: two transactions that together store a value only when it changes something. */
module PutIfDifferent {
  import opened Etcd

  datatype Outcome<+V> = Outcome(log: seq<Event<V>>, succeeded: bool)

  /** First transaction: put when the key has no modification revision. */
  function PutIfAbsent<V>(log: seq<Event<V>>, key: string, value: V): Outcome<V> {
    if Exists(log, key) then Outcome(log, false) else Outcome(log + [Put(key, value)], true)
  }

  /** Second transaction: put when the value differs. The comparison is false on a missing key. */
  function PutIfValueDiffers<V(==)>(log: seq<Event<V>>, key: string, value: V): Outcome<V> {
    if Exists(log, key) && Value(log, key) != value
    then Outcome(log + [Put(key, value)], true)
    else Outcome(log, false)
  }

  /** Both transactions, with the events that other clients add between the two. */
  function SetIfDifferent<V(==)>(log: seq<Event<V>>, others: seq<Event<V>>, key: string, value: V): Outcome<V> {
    var first := PutIfAbsent(log, key, value);
    if first.succeeded then first else PutIfValueDiffers(log + others, key, value)
  }

  /** One put at most, Succeeded says whether it happened, and the rest of the log is other clients' work.
  The last transaction leaves the key with the requested value, unless the key existed and somebody
  deleted it before the second transaction: this is exactly when two transactions are too few. */
  lemma AtMostOnePut<V>(log: seq<Event<V>>, others: seq<Event<V>>, key: string, value: V)
    ensures var o := SetIfDifferent(log, others, key, value);
            var before := if Exists(log, key) then log + others else log;
            var deletedBetween := Exists(log, key) && !Exists(before, key);
            && o.log == before + (if o.succeeded then [Put(key, value)] else [])
            && (o.succeeded <==> !Holds(before, key, value) && !deletedBetween)
            && (Holds(o.log, key, value) <==> !deletedBetween)
  {
    if !Exists(log, key) {
      Append(log, Put(key, value), key);
    } else if Exists(log + others, key) && Value(log + others, key) != value {
      Append(log + others, Put(key, value), key);
    }
  }

  /** Other clients that never delete the key cannot make it disappear. */
  lemma {:induction false} StaysWithoutDelete<V>(log: seq<Event<V>>, others: seq<Event<V>>, key: string)
    requires Exists(log, key)
    requires Delete(key) !in others
    ensures Exists(log + others, key)
    decreases |others|
  {
    if others == [] {
      assert log + others == log;
    } else {
      var rest, e := others[..|others| - 1], others[|others| - 1];
      assert e in others;
      StaysWithoutDelete(log, rest, key);
      assert log + others == (log + rest) + [e];
      Append(log + rest, e, key);
    }
  }

  /** The promise setIfDifferent was written for: no deletion between the transactions, value stored. */
  lemma StoredUnderInterference<V>(log: seq<Event<V>>, others: seq<Event<V>>, key: string, value: V)
    requires Delete(key) !in others
    ensures Holds(SetIfDifferent(log, others, key, value).log, key, value)
  {
    AtMostOnePut(log, others, key, value);
    if Exists(log, key) {
      StaysWithoutDelete(log, others, key);
    }
  }

  /** Repeating the call with no interference at all writes nothing. */
  lemma SecondCallIsNoOp<V>(log: seq<Event<V>>, others: seq<Event<V>>, key: string, value: V)
    requires Delete(key) !in others
    ensures var o := SetIfDifferent(log, others, key, value);
            SetIfDifferent(o.log, [], key, value) == Outcome(o.log, false)
  {
    StoredUnderInterference(log, others, key, value);
    var o := SetIfDifferent(log, others, key, value);
    assert o.log + [] == o.log;
  }

  /** The client that runs the transactions against a cluster shared with other nodes. */
  class Cluster<V(==)> {
    var log: seq<Event<V>>

    constructor ()
      ensures log == []
    {
      log := [];
    }

    method CommitIfAbsent(key: string, value: V) returns (succeeded: bool, revision: nat)
      modifies this
      ensures Outcome(log, succeeded) == PutIfAbsent(old(log), key, value)
      ensures revision == |log|
    {
      succeeded := !Exists(log, key);
      if succeeded {
        log := log + [Put(key, value)];
      }
      revision := |log|;
    }

    method CommitIfValueDiffers(key: string, value: V) returns (succeeded: bool, revision: nat)
      modifies this
      ensures Outcome(log, succeeded) == PutIfValueDiffers(old(log), key, value)
      ensures revision == |log|
    {
      succeeded := Exists(log, key) && Value(log, key) != value;
      if succeeded {
        log := log + [Put(key, value)];
      }
      revision := |log|;
    }

    /** `others` are the events other nodes get into the log between the two transactions. */
    method SetIfDifferentCall(key: string, value: V, others: seq<Event<V>>) returns (succeeded: bool, revision: nat)
      modifies this
      ensures Outcome(log, succeeded) == SetIfDifferent(old(log), others, key, value)
      ensures revision == |log|
      ensures succeeded ==> log[revision - 1] == Put(key, value)
      ensures Delete(key) !in others ==> Holds(log, key, value)
    {
      succeeded, revision := CommitIfAbsent(key, value);
      if !succeeded {
        log := log + others;
        succeeded, revision := CommitIfValueDiffers(key, value);
      }
      if Delete(key) !in others {
        StoredUnderInterference(old(log), others, key, value);
      }
    }
  }
}
