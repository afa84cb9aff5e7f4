/** A bounded queue whose producer makes room by dropping the oldest result, while a consumer
    takes results at any time. */
module ResultQueue {
  import opened Lists

  /** `line` holds the results taken so far and behind them those still queued; the consumer is at
      `head`. Recorded besides: every result produced, and the positions of those in line. */
  datatype Outbox<R> = Outbox(line: seq<R>, head: nat, drops: nat, produced: seq<R>, kept: seq<nat>)

  function Empty<R>(): Outbox<R> {
    Outbox([], 0, 0, [], [])
  }

  function Taken<R>(o: Outbox<R>): seq<R>
    requires o.head <= |o.line|
  {
    o.line[..o.head]
  }

  function Queued<R>(o: Outbox<R>): seq<R>
    requires o.head <= |o.line|
  {
    o.line[o.head..]
  }

  /** queue.Queue.full; a bound of zero or less means none. */
  predicate IsFull<R>(limit: int, o: Outbox<R>) {
    0 < limit <= |o.line| - o.head
  }

  /** The consumer's gets; on an empty queue nothing happens. */
  function TakeMany<R>(o: Outbox<R>, n: nat): Outbox<R> {
    if o.head + n <= |o.line| then o.(head := o.head + n)
    else if o.head <= |o.line| then o.(head := |o.line|)
    else o
  }

  function Without<T>(xs: seq<T>, at: nat): seq<T> {
    if at < |xs| then xs[..at] + xs[at + 1..] else xs
  }

  /** The producer's get_nowait: the oldest queued result is lost. */
  function DropOldest<R>(o: Outbox<R>): Outbox<R> {
    if o.head < |o.line| then
      o.(line := Without(o.line, o.head), drops := o.drops + 1, kept := Without(o.kept, o.head))
    else o
  }

  function Append<R>(o: Outbox<R>, r: R): Outbox<R> {
    o.(line := o.line + [r], produced := o.produced + [r], kept := o.kept + [|o.produced|])
  }

  /** Putting a result once the queue has been looked at, when the consumer takes a and b results
      before the two accesses that follow. */
  function Put<R>(limit: int, o: Outbox<R>, r: R, a: nat, b: nat): Outbox<R> {
    var next := TakeMany(o, a);
    if IsFull(limit, o) then Append(TakeMany(DropOldest(next), b), r) else Append(next, r)
  }

  /** What was taken and what is queued are, together and in order, the results produced less
      those dropped. */
  predicate Accounted<R(==)>(o: Outbox<R>) {
    && o.head <= |o.line|
    && Increasing(o.kept) && Below(o.kept, |o.produced|) && Select(o.produced, o.kept) == o.line
    && |o.produced| == |o.kept| + o.drops
  }

  predicate Bounded<R>(limit: int, o: Outbox<R>) {
    limit > 0 ==> |o.line| - o.head <= limit
  }

  lemma TakingKeepsAccount<R>(limit: int, o: Outbox<R>, n: nat)
    requires Accounted(o) && Bounded(limit, o)
    ensures Accounted(TakeMany(o, n)) && Bounded(limit, TakeMany(o, n))
    ensures TakeMany(o, n).line == o.line && TakeMany(o, n).head >= o.head
  {
  }

  lemma DroppingKeepsAccount<R>(o: Outbox<R>)
    requires Accounted(o)
    ensures Accounted(DropOldest(o))
  {
    var (kept, line) := (Without(o.kept, o.head), Without(o.line, o.head));
    forall k | o.head < |o.line| && 0 <= k < |kept| ensures kept[k] < |o.produced| && o.produced[kept[k]] == line[k] {
      var was := if k < o.head then k else k + 1;
      assert kept[k] == o.kept[was] && line[k] == o.line[was] == Select(o.produced, o.kept)[was];
    }
  }

  lemma AppendingKeepsAccount<R>(limit: int, o: Outbox<R>, r: R)
    requires Accounted(o) && Bounded(limit, o) && !IsFull(limit, o)
    ensures Accounted(Append(o, r)) && Bounded(limit, Append(o, r))
  {
    var after := Append(o, r);
    forall k | 0 <= k < |after.kept| ensures after.produced[after.kept[k]] == after.line[k] {
      assert k < |o.kept| ==> o.line[k] == Select(o.produced, o.kept)[k];
    }
  }

  /** However the consumer's takes fall between the producer's accesses, the queue is not full
      when the result is put, no result is lost uncounted, and order is kept. */
  lemma PutKeepsAccount<R>(limit: int, o: Outbox<R>, r: R, a: nat, b: nat)
    requires Accounted(o) && Bounded(limit, o)
    ensures var after := Put(limit, o, r, a, b);
            Accounted(after) && Bounded(limit, after) && after.produced == o.produced + [r]
  {
    var next := TakeMany(o, a);
    TakingKeepsAccount(limit, o, a);
    if IsFull(limit, o) {
      DroppingKeepsAccount(next);
      TakingKeepsAccount(limit, DropOldest(next), b);
      AppendingKeepsAccount(limit, TakeMany(DropOldest(next), b), r);
    } else {
      AppendingKeepsAccount(limit, next, r);
    }
  }

  /** A put loses a result exactly when it finds the queue full and the consumer does not empty it
      before the drop; then it is the oldest one still queued. */
  lemma PutLosesExactly<R>(limit: int, o: Outbox<R>, r: R, a: nat, b: nat)
    requires o.head <= |o.line|
    ensures var (queued, after) := (o.line[o.head..], Put(limit, o, r, a, b));
            if 0 < limit <= |queued| && a < |queued| then
              after.drops == o.drops + 1 && after.line == o.line[..o.head + a] + queued[a + 1..] + [r]
            else
              after.drops == o.drops && after.line == o.line + [r]
  {
  }

  /** A bounded queue shared by a producer and a consumer. */
  class SharedQueue<R(==)> {
    const limit: int
    var results: seq<R>
    ghost var taken: seq<R>
    ghost var drops: nat
    ghost var produced: seq<R>
    ghost var kept: seq<nat>

    constructor (limit: int)
      ensures this.limit == limit && Shows(Empty())
    {
      this.limit := limit;
      results, taken, drops, produced, kept := [], [], 0, [], [];
    }

    /** The fields show the outbox o. */
    ghost predicate Shows(o: Outbox<R>)
      reads this
    {
      o == Outbox(taken + results, |taken|, drops, produced, kept)
    }

    /** The consumer takes n results. */
    method ConsumerTakes(n: nat, ghost o: Outbox<R>)
      requires Shows(o)
      modifies this`results, this`taken
      ensures Shows(TakeMany(o, n))
    {
      var m := if n <= |results| then n else |results|;
      assert taken + results == taken + results[..m] + results[m..];
      taken := taken + results[..m];
      results := results[m..];
    }

    /** _put_latest: the consumer takes a results before the look at the queue, b and c before the
        accesses that follow. */
    method PutLatest(r: R, a: nat, b: nat, c: nat, ghost o: Outbox<R>)
      requires Shows(o)
      modifies this
      ensures Shows(Put(limit, TakeMany(o, a), r, b, c))
    {
      ConsumerTakes(a, o);
      ghost var seen := TakeMany(o, a);
      var full := 0 < limit <= |results|;
      ConsumerTakes(b, seen);
      ghost var next := TakeMany(seen, b);
      if full {
        if results != [] {
          assert Without(taken + results, |taken|) == taken + results[1..];
          kept := Without(kept, |taken|);
          results := results[1..];
          drops := drops + 1;
        }
        ConsumerTakes(c, DropOldest(next));
      }
      assert taken + results + [r] == taken + (results + [r]);
      produced, kept := produced + [r], kept + [|produced|];
      results := results + [r];
    }
  }
}
