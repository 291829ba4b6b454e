/** What may be asked of a timer. */
module TimerRequests {

  datatype Request = NoRequest | Start | Halt | Free
}

/** Optional values, and queues of identifiers without repetition. */
module Lists {

  datatype Option<+T> = None | Some(value: T)

  predicate Distinct(q: seq<nat>) {
    forall j, k :: 0 <= j < k < |q| ==> q[j] != q[k]
  }

  lemma Regroup<T>(a: seq<T>, b: seq<T>, c: seq<T>)
    ensures a + (b + c) == (a + b) + c
  {}

  /** The queue with every `i` taken out. */
  function Without(queue: seq<nat>, i: nat): (r: seq<nat>)
    ensures forall x :: x in r <==> x in queue && x != i
    ensures |r| <= |queue|
  {
    if queue == [] then []
    else if queue[0] == i then Without(queue[1..], i)
    else [queue[0]] + Without(queue[1..], i)
  }

  lemma {:induction false} WithoutDistinct(q: seq<nat>, i: nat)
    requires Distinct(q)
    ensures Distinct(Without(q, i))
  {
    if q != [] {
      WithoutDistinct(q[1..], i);
      var r := Without(q[1..], i);
      assert forall k :: 0 <= k < |r| ==> r[k] in r;
    }
  }

  lemma {:induction false} AbsentWithout(q: seq<nat>, i: nat)
    requires i !in q
    ensures Without(q, i) == q
  {
    if q != [] { AbsentWithout(q[1..], i); }
  }
}
