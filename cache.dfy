/** `LeastRecentUsedCache<T>`: a dictionary from string keys to values and a
    removal queue of the same keys, least recently used first. The lock
    around each operation only serialises callers and is not modelled. */
module Cache {

  /** `List<string>.Remove(key)`: drop the first occurrence, if any. */
  function RemoveFirst(q: seq<string>, key: string): (r: seq<string>)
    ensures key !in q ==> r == q
    ensures key in q ==> |r| == |q| - 1
    ensures forall k :: k in r ==> k in q
  {
    if |q| == 0 then q
    else if q[0] == key then q[1..]
    else [q[0]] + RemoveFirst(q[1..], key)
  }

  predicate NoDuplicates(q: seq<string>) {
    forall i, j :: 0 <= i < j < |q| ==> q[i] != q[j]
  }

  /** In a queue without duplicates, removing a key removes exactly that key
      and keeps the order of the others. */
  lemma {:induction false} RemoveFirstUnique(q: seq<string>, key: string)
    requires NoDuplicates(q)
    ensures NoDuplicates(RemoveFirst(q, key))
    ensures forall k :: k in RemoveFirst(q, key) <==> k in q && k != key
    decreases |q|
  {
    if |q| > 0 && q[0] != key {
      var rest := q[1..];
      assert NoDuplicates(rest) by {
        forall i, j | 0 <= i < j < |rest| ensures rest[i] != rest[j] {
          assert rest[i] == q[i + 1] && rest[j] == q[j + 1];
        }
      }
      RemoveFirstUnique(rest, key);
      var r := RemoveFirst(q, key);
      assert q[0] !in rest;
      assert r == [q[0]] + RemoveFirst(rest, key);
    } else if |q| > 0 {
      assert forall k :: k in q[1..] ==> k != q[0];
    }
  }

  lemma AppendFresh(q: seq<string>, key: string)
    requires NoDuplicates(q) && key !in q
    ensures NoDuplicates(q + [key])
  {
  }

  class LeastRecentUsedCache<T> {
    const maximumItems: int
    /** What `default(T)` gives for a miss. */
    const defaultValue: T
    var removalQueue: seq<string>
    var index: map<string, T>

    /** The keys of the index are exactly the entries of the queue, each
        once, and there are never more than `maximumItems` of them. */
    ghost predicate Valid()
      reads this
    {
      0 <= maximumItems &&
      NoDuplicates(removalQueue) &&
      (forall k :: k in index <==> k in removalQueue) &&
      |removalQueue| <= maximumItems
    }

    /** `new List<string>(maxItems)` throws for a negative capacity. */
    constructor (maxItems: int, defaultValue: T)
      requires maxItems >= 0
      ensures Valid()
      ensures maximumItems == maxItems && this.defaultValue == defaultValue
      ensures removalQueue == [] && index == map[]
    {
      maximumItems := maxItems;
      this.defaultValue := defaultValue;
      removalQueue := [];
      index := map[];
    }

    function ContainsKey(key: string): (b: bool)
      requires Valid()
      reads this
      ensures b <==> key in removalQueue
    {
      key in index
    }

    /** The indexer's getter: a hit moves the key to the most recently used
        end of the queue; a miss changes nothing. */
    method Get(key: string) returns (value: T)
      requires Valid()
      modifies this
      ensures Valid()
      ensures index == old(index)
      ensures key in old(index) ==> value == old(index)[key]
      ensures key in old(index) ==> removalQueue == RemoveFirst(old(removalQueue), key) + [key]
      ensures key !in old(index) ==> value == defaultValue && removalQueue == old(removalQueue)
    {
      if key in index {
        RemoveFirstUnique(removalQueue, key);
        removalQueue := RemoveFirst(removalQueue, key);
        removalQueue := removalQueue + [key];
        return index[key];
      }
      return defaultValue;
    }

    method Remove(key: string)
      requires Valid()
      modifies this
      ensures Valid()
      ensures index == old(index) - {key}
      ensures removalQueue == RemoveFirst(old(removalQueue), key)
    {
      RemoveFirstUnique(removalQueue, key);
      index := index - {key};
      removalQueue := RemoveFirst(removalQueue, key);
    }

    /** Add (and the indexer's setter). A new key in a full cache first
        evicts the least recently used key. With a capacity of 0 the cache
        is always full and empty, and `_removalQueue[0]` throws: `ok` is
        false and nothing changes. */
    method Add(key: string, value: T) returns (ok: bool)
      requires Valid()
      modifies this
      ensures Valid()
      ensures ok <==> key in old(index) || maximumItems > 0
      ensures !ok ==> index == old(index) && removalQueue == old(removalQueue)
      ensures ok && key in old(index) ==>
        index == old(index)[key := value] &&
        removalQueue == RemoveFirst(old(removalQueue), key) + [key]
      ensures ok && key !in old(index) && |old(removalQueue)| == maximumItems ==>
        index == (old(index) - {old(removalQueue)[0]})[key := value] &&
        removalQueue == old(removalQueue)[1..] + [key]
      ensures ok && key !in old(index) && |old(removalQueue)| < maximumItems ==>
        index == old(index)[key := value] && removalQueue == old(removalQueue) + [key]
    {
      if key in index {
        RemoveFirstUnique(removalQueue, key);
        removalQueue := RemoveFirst(removalQueue, key);
      } else {
        if |removalQueue| == maximumItems {
          if |removalQueue| == 0 {
            return false;
          }
          var removeKey := removalQueue[0];
          Remove(removeKey);
        }
      }
      AppendFresh(removalQueue, key);
      index := index[key := value];
      removalQueue := removalQueue + [key];
      return true;
    }

    method Clear()
      requires Valid()
      modifies this
      ensures Valid()
      ensures index == map[] && removalQueue == []
    {
      index := map[];
      removalQueue := [];
    }
  }
}
