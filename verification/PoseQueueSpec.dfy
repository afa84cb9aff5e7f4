/** The pose queue as a multiset: what every put and get does to it, what a whole run of them
    keeps and loses, and that puts keep the best requests seen. */
module PoseQueueSpec {
  import opened Options
  import opened Heaps
  import opened Lists

  type Bag = multiset<PoseRequest>

  predicate Least(held: Bag, x: PoseRequest) {
    x in held && forall y :: y in held ==> !Before(y, x)
  }

  /** Worth keeping over b: higher priority, or the newer of the same priority. */
  predicate Better(a: PoseRequest, b: PoseRequest) {
    Rank(a.priority) < Rank(b.priority) || (a.priority == b.priority && a.requestedAt > b.requestedAt)
  }

  predicate Worst(held: Bag, x: PoseRequest) {
    x in held && forall y :: y in held ==> !Better(x, y)
  }

  /** What a put does: it finds room, replaces the worst request held, or is turned away. */
  datatype Outcome = Stored | Replaced(worst: PoseRequest) | Rejected(worst: PoseRequest)

  datatype Event = Offer(item: PoseRequest, outcome: Outcome) | Take(taken: Option<PoseRequest>)

  predicate PutStep(maxsize: nat, held: Bag, item: PoseRequest, outcome: Outcome) {
    match outcome
    case Stored => |held| < maxsize
    case Replaced(w) => |held| >= maxsize && Worst(held, w) && Rank(item.priority) <= Rank(w.priority)
    case Rejected(w) => |held| >= maxsize && Worst(held, w) && Rank(item.priority) > Rank(w.priority)
  }

  predicate GetStep(held: Bag, taken: Option<PoseRequest>) {
    match taken
    case None => held == multiset{}
    case Some(x) => Least(held, x)
  }

  predicate LegalEvent(maxsize: nat, held: Bag, e: Event) {
    match e
    case Offer(item, outcome) => PutStep(maxsize, held, item, outcome)
    case Take(taken) => GetStep(held, taken)
  }

  /** Requests an event brings in, takes out, and loses. */
  function Offered(e: Event): Bag {
    if e.Offer? then multiset{e.item} else multiset{}
  }

  function Taken(e: Event): Bag {
    if e.Take? && e.taken.Some? then multiset{e.taken.value} else multiset{}
  }

  function Lost(e: Event): Bag {
    if e.Offer? && e.outcome.Replaced? then multiset{e.outcome.worst}
    else if e.Offer? && e.outcome.Rejected? then multiset{e.item}
    else multiset{}
  }

  function Apply(held: Bag, e: Event): Bag {
    match e
    case Offer(item, Stored) => held + multiset{item}
    case Offer(item, Replaced(w)) => held - multiset{w} + multiset{item}
    case Offer(_, Rejected(_)) => held
    case Take(None) => held
    case Take(Some(x)) => held - multiset{x}
  }

  // ----- runs, from any contents -----

  function After(start: Bag, events: seq<Event>): Bag
    decreases |events|
  {
    if events == [] then start else Apply(After(start, events[..|events| - 1]), events[|events| - 1])
  }

  predicate Legal(maxsize: nat, start: Bag, events: seq<Event>)
    decreases |events|
  {
    events != [] ==>
      var (init, e) := (events[..|events| - 1], events[|events| - 1]);
      Legal(maxsize, start, init) && LegalEvent(maxsize, After(start, init), e)
  }

  function AllOffered(events: seq<Event>): Bag
    decreases |events|
  {
    if events == [] then multiset{} else AllOffered(events[..|events| - 1]) + Offered(events[|events| - 1])
  }

  function AllTaken(events: seq<Event>): Bag
    decreases |events|
  {
    if events == [] then multiset{} else AllTaken(events[..|events| - 1]) + Taken(events[|events| - 1])
  }

  function AllLost(events: seq<Event>): Bag
    decreases |events|
  {
    if events == [] then multiset{} else AllLost(events[..|events| - 1]) + Lost(events[|events| - 1])
  }

  /** What the counter `dropped` counts. */
  function Drops(events: seq<Event>): nat
    decreases |events|
  {
    if events == [] then 0
    else
      var e := events[|events| - 1];
      Drops(events[..|events| - 1]) + if e.Offer? && !e.outcome.Stored? then 1 else 0
  }

  /** What a queue holds and has counted is what its history says. */
  predicate Accounts(maxsize: nat, history: seq<Event>, held: Bag, dropped: nat) {
    Legal(maxsize, multiset{}, history) && held == After(multiset{}, history) && dropped == Drops(history)
  }

  lemma Record(maxsize: nat, history: seq<Event>, held: Bag, dropped: nat, e: Event)
    requires Accounts(maxsize, history, held, dropped) && LegalEvent(maxsize, held, e)
    ensures Accounts(maxsize, history + [e], Apply(held, e), dropped + if e.Offer? && !e.outcome.Stored? then 1 else 0)
  {
    assert (history + [e])[..|history|] == history;
  }

  /** Every request held at the start or offered is taken, lost or still held, with its
      multiplicity. */
  lemma {:induction false} NothingVanishes(maxsize: nat, start: Bag, events: seq<Event>, x: PoseRequest)
    requires Legal(maxsize, start, events)
    ensures start[x] + AllOffered(events)[x] == AllTaken(events)[x] + AllLost(events)[x] + After(start, events)[x]
    decreases |events|
  {
    if events != [] {
      var init := events[..|events| - 1];
      NothingVanishes(maxsize, start, init, x);
      EventBalances(maxsize, After(start, init), events[|events| - 1], x);
    }
  }

  lemma EventBalances(maxsize: nat, held: Bag, e: Event, x: PoseRequest)
    requires LegalEvent(maxsize, held, e)
    ensures held[x] + Offered(e)[x] == Taken(e)[x] + Lost(e)[x] + Apply(held, e)[x]
  {
  }

  /** The size bound holds, and `dropped` counts exactly the requests lost. */
  lemma {:induction false} SizeIsBounded(maxsize: nat, events: seq<Event>)
    requires Legal(maxsize, multiset{}, events)
    ensures |After(multiset{}, events)| <= maxsize && Drops(events) == |AllLost(events)|
    ensures |AllOffered(events)| == |AllTaken(events)| + |AllLost(events)| + |After(multiset{}, events)|
    decreases |events|
  {
    if events != [] {
      var (init, e) := (events[..|events| - 1], events[|events| - 1]);
      SizeIsBounded(maxsize, init);
      EventSizes(maxsize, After(multiset{}, init), e);
      SumSize(AllOffered(init), Offered(e));
      SumSize(AllTaken(init), Taken(e));
      SumSize(AllLost(init), Lost(e));
    }
  }

  function WasAccepted(): Event -> bool {
    (e: Event) => e.Offer? && !e.outcome.Rejected?
  }

  function WasRejected(): Event -> bool {
    (e: Event) => e.Offer? && e.outcome.Rejected?
  }

  function Evicted(): Event -> bool {
    (e: Event) => e.Offer? && e.outcome.Replaced?
  }

  /** Accepted = taken + evicted + held, and dropped = rejected + evicted. */
  lemma {:induction false} AcceptedAreAccounted(maxsize: nat, events: seq<Event>)
    requires Legal(maxsize, multiset{}, events)
    ensures Count(events, WasAccepted())
            == |AllTaken(events)| + Count(events, Evicted()) + |After(multiset{}, events)|
    ensures Drops(events) == Count(events, WasRejected()) + Count(events, Evicted())
    decreases |events|
  {
    if events != [] {
      var (init, e) := (events[..|events| - 1], events[|events| - 1]);
      AcceptedAreAccounted(maxsize, init);
      SizeIsBounded(maxsize, init);
      EventSizes(maxsize, After(multiset{}, init), e);
      SumSize(AllTaken(init), Taken(e));
    }
  }

  lemma SumSize(a: Bag, b: Bag)
    ensures |a + b| == |a| + |b|
  {
  }

  lemma EventSizes(maxsize: nat, held: Bag, e: Event)
    requires LegalEvent(maxsize, held, e) && |held| <= maxsize
    ensures |held| + |Offered(e)| == |Taken(e)| + |Lost(e)| + |Apply(held, e)| && |Apply(held, e)| <= maxsize
    ensures |Lost(e)| == if e.Offer? && !e.outcome.Stored? then 1 else 0
  {
    match e
    case Offer(item, Stored) => SumSize(held, multiset{item});
    case Offer(item, Replaced(w)) =>
      Removed(held, w);
      SumSize(held - multiset{w}, multiset{item});
    case Offer(item, Rejected(_)) =>
    case Take(None) =>
    case Take(Some(x)) => Removed(held, x);
  }

  lemma Removed(held: Bag, x: PoseRequest)
    requires x in held
    ensures |held - multiset{x}| == |held| - 1
  {
    SumSize(held - multiset{x}, multiset{x});
    assert held - multiset{x} + multiset{x} == held;
  }

  // ----- the best requests -----

  predicate LeftOut(all: Bag, kept: Bag, x: PoseRequest) {
    all[x] > kept[x]
  }

  /** kept holds maxsize of all (or all of them if they are fewer) and none it left out is
      better than one it kept. */
  ghost predicate IsBest(maxsize: nat, all: Bag, kept: Bag) {
    && kept <= all
    && |kept| == (if |all| < maxsize then |all| else maxsize)
    && forall x, y :: LeftOut(all, kept, x) && y in kept ==> !Better(x, y)
  }

  /** Two best selections differ only between requests of the same priority and time. */
  lemma BestIsUnique(maxsize: nat, all: Bag, a: Bag, b: Bag, x: PoseRequest, y: PoseRequest)
    requires IsBest(maxsize, all, a) && IsBest(maxsize, all, b) && a[x] > b[x] && b[y] > a[y]
    ensures x.priority == y.priority && x.requestedAt == y.requestedAt
  {
    assert LeftOut(all, b, x) && LeftOut(all, a, y);
  }

  /** An older request displaces a newer one of the same priority. */
  predicate IsLate(item: PoseRequest, outcome: Outcome) {
    outcome.Replaced? && item.priority == outcome.worst.priority && item.requestedAt < outcome.worst.requestedAt
  }

  lemma StoredKeepsBest(maxsize: nat, all: Bag, held: Bag, item: PoseRequest)
    requires IsBest(maxsize, all, held) && |held| < maxsize
    ensures IsBest(maxsize, all + multiset{item}, held + multiset{item})
  {
    NothingLeftOut(all, held);
    SumSize(all, multiset{item});
  }

  lemma RejectedKeepsBest(maxsize: nat, all: Bag, held: Bag, item: PoseRequest, w: PoseRequest)
    requires IsBest(maxsize, all, held) && PutStep(maxsize, held, item, Rejected(w))
    ensures IsBest(maxsize, all + multiset{item}, held)
  {
    SumSize(all, multiset{item});
    forall x, y | LeftOut(all + multiset{item}, held, x) && y in held ensures !Better(x, y) {
      assert x == item || LeftOut(all, held, x);
    }
  }

  lemma ReplacedIsOrdered(maxsize: nat, all: Bag, held: Bag, item: PoseRequest, w: PoseRequest, x: PoseRequest,
                          y: PoseRequest)
    requires IsBest(maxsize, all, held) && PutStep(maxsize, held, item, Replaced(w)) && !IsLate(item, Replaced(w))
    requires LeftOut(all + multiset{item}, held - multiset{w} + multiset{item}, x)
    requires y in held - multiset{w} + multiset{item}
    ensures !Better(x, y)
  {
    assert x == w || LeftOut(all, held, x);
    assert y == item || y in held;
  }

  lemma ReplacedKeepsBest(maxsize: nat, all: Bag, held: Bag, item: PoseRequest, w: PoseRequest)
    requires IsBest(maxsize, all, held) && PutStep(maxsize, held, item, Replaced(w))
    ensures IsBest(maxsize, all + multiset{item}, held - multiset{w} + multiset{item}) <==> !IsLate(item, Replaced(w))
  {
    var next := held - multiset{w} + multiset{item};
    SumSize(all, multiset{item});
    EventSizes(maxsize, held, Offer(item, Replaced(w)));
    if IsLate(item, Replaced(w)) {
      assert LeftOut(all + multiset{item}, next, w) && item in next && Better(w, item);
    } else {
      forall x, y | LeftOut(all + multiset{item}, next, x) && y in next ensures !Better(x, y) {
        ReplacedIsOrdered(maxsize, all, held, item, w, x, y);
      }
    }
  }

  /** One put on a queue that holds the best keeps it so exactly when it does not displace a
      newer request of the same priority. */
  lemma PutKeepsBest(maxsize: nat, all: Bag, held: Bag, item: PoseRequest, outcome: Outcome)
    requires IsBest(maxsize, all, held) && PutStep(maxsize, held, item, outcome)
    ensures IsBest(maxsize, all + multiset{item}, Apply(held, Offer(item, outcome))) <==> !IsLate(item, outcome)
  {
    match outcome
    case Stored => StoredKeepsBest(maxsize, all, held, item);
    case Rejected(w) => RejectedKeepsBest(maxsize, all, held, item, w);
    case Replaced(w) => ReplacedKeepsBest(maxsize, all, held, item, w);
  }

  /** With room for one request: an older one of the same priority displaces the newer one held,
      and the queue no longer holds the best. */
  lemma LatePutSpoilsBest(newer: PoseRequest, older: PoseRequest)
    requires newer.priority == older.priority == Medium && older.requestedAt < newer.requestedAt
    ensures var (held, put) := (multiset{newer}, Replaced(newer));
            && PutStep(1, held, older, put) && IsLate(older, put)
            && IsBest(1, held, held)
            && Apply(held, Offer(older, put)) == multiset{older}
            && !IsBest(1, held + multiset{older}, multiset{older})
  {
    var held := multiset{newer};
    assert Worst(held, newer);
    assert held - multiset{newer} + multiset{older} == multiset{older};
    PutKeepsBest(1, held, held, older, Replaced(newer));
  }

  lemma NothingLeftOut(all: Bag, held: Bag)
    requires held <= all && |held| == |all|
    ensures held == all
  {
    SumSize(held, all - held);
    assert held + (all - held) == all;
  }

  predicate OnlyOffers(events: seq<Event>) {
    forall i :: 0 <= i < |events| ==> events[i].Offer?
  }

  /** Requests arrive in the order of their times, after those held at the start. */
  predicate InTimeOrder(start: Bag, events: seq<Event>) {
    && OnlyOffers(events)
    && (forall i, j :: 0 <= i < j < |events| ==> events[i].item.requestedAt <= events[j].item.requestedAt)
    && (forall y, i :: y in start && 0 <= i < |events| ==> y.requestedAt <= events[i].item.requestedAt)
  }

  lemma OnlyTheOfferIsNew(held: Bag, e: Event, y: PoseRequest)
    requires e.Offer? && y in Apply(held, e)
    ensures y == e.item || y in held
  {
  }

  /** Whatever is held came with the start or with an earlier put. */
  lemma {:induction false} HeldIsOlder(start: Bag, events: seq<Event>, n: nat, y: PoseRequest)
    requires InTimeOrder(start, events) && n < |events| && y in After(start, events[..n])
    ensures y.requestedAt <= events[n].item.requestedAt
    decreases n
  {
    if n > 0 {
      var e := events[n - 1];
      assert events[..n][..n - 1] == events[..n - 1];
      OnlyTheOfferIsNew(After(start, events[..n - 1]), e, y);
      if y != e.item {
        HeldIsOlder(start, events, n - 1, y);
      }
    } else {
      assert events[..0] == [];
    }
  }

  lemma SumAssociates(a: Bag, b: Bag, c: Bag)
    ensures a + (b + c) == a + b + c
  {
  }

  lemma NoneLeftOut(maxsize: nat, held: Bag)
    requires |held| <= maxsize
    ensures IsBest(maxsize, held + multiset{}, held)
  {
    assert held + multiset{} == held;
  }

  lemma InOrderIsNotLate(maxsize: nat, start: Bag, events: seq<Event>)
    requires Legal(maxsize, start, events) && InTimeOrder(start, events) && events != []
    ensures var e := events[|events| - 1]; !IsLate(e.item, e.outcome)
  {
    var (n, e) := (|events| - 1, events[|events| - 1]);
    if e.outcome.Replaced? {
      HeldIsOlder(start, events, n, e.outcome.worst);
    }
  }

  /** No request left out is more urgent than one kept, or newer at the same priority. */
  ghost predicate NoneWorthier(all: Bag, kept: Bag) {
    forall x, y :: LeftOut(all, kept, x) && y in kept ==>
                     && !MoreUrgent(x.priority, y.priority)
                     && (x.priority == y.priority ==> x.requestedAt <= y.requestedAt)
  }

  lemma BestIsMostUrgent(maxsize: nat, all: Bag, kept: Bag)
    requires IsBest(maxsize, all, kept)
    ensures NoneWorthier(all, kept)
  {
    forall x, y | LeftOut(all, kept, x) && y in kept
      ensures !MoreUrgent(x.priority, y.priority) && (x.priority == y.priority ==> x.requestedAt <= y.requestedAt)
    {
      assert !Better(x, y);
    }
  }

  /** What a put decides: it finds room unless the queue is full; then the request to go is one of
      the least urgent and the oldest of those, and the newcomer is turned away exactly when that
      one is more urgent. */
  lemma PutDecides(maxsize: nat, held: Bag, item: PoseRequest, outcome: Outcome)
    requires PutStep(maxsize, held, item, outcome)
    ensures outcome.Stored? <==> |held| < maxsize
    ensures !outcome.Stored? ==>
              && outcome.worst in held
              && (outcome.Rejected? <==> MoreUrgent(outcome.worst.priority, item.priority))
              && forall y :: y in held ==>
                   && !MoreUrgent(outcome.worst.priority, y.priority)
                   && (y.priority == outcome.worst.priority ==> outcome.worst.requestedAt <= y.requestedAt)
  {
    if !outcome.Stored? {
      forall y | y in held
        ensures !MoreUrgent(outcome.worst.priority, y.priority)
        ensures y.priority == outcome.worst.priority ==> outcome.worst.requestedAt <= y.requestedAt
      {
        assert !Better(outcome.worst, y);
      }
    }
  }

  /** After any run of puts whose times do not decrease, from any contents, the queue holds
      exactly the best maxsize requests: by priority first, and newest first within one. */
  lemma {:induction false} PutsKeepTheBest(maxsize: nat, start: Bag, events: seq<Event>)
    requires |start| <= maxsize && Legal(maxsize, start, events) && InTimeOrder(start, events)
    ensures IsBest(maxsize, start + AllOffered(events), After(start, events))
    ensures NoneWorthier(start + AllOffered(events), After(start, events))
    decreases |events|
  {
    if events == [] {
      NoneLeftOut(maxsize, start);
    } else {
      var (init, e) := (events[..|events| - 1], events[|events| - 1]);
      PutsKeepTheBest(maxsize, start, init);
      SumAssociates(start, AllOffered(init), Offered(e));
      InOrderIsNotLate(maxsize, start, events);
      PutKeepsBest(maxsize, start + AllOffered(init), After(start, init), e.item, e.outcome);
    }
    BestIsMostUrgent(maxsize, start + AllOffered(events), After(start, events));
  }

  // ----- gets -----

  lemma {:induction false} HeldShrinks(start: Bag, events: seq<Event>, i: nat, j: nat, y: PoseRequest)
    requires i <= j <= |events| && (forall k :: i <= k < j ==> events[k].Take?)
    requires y in After(start, events[..j])
    ensures y in After(start, events[..i])
    decreases j - i
  {
    if i < j {
      assert events[..j][..j - 1] == events[..j - 1];
      HeldShrinks(start, events, i, j - 1, y);
    }
  }

  lemma {:induction false} LegalAt(maxsize: nat, start: Bag, events: seq<Event>, i: nat)
    requires Legal(maxsize, start, events) && i < |events|
    ensures LegalEvent(maxsize, After(start, events[..i]), events[i])
    decreases |events|
  {
    if i < |events| - 1 {
      LegalAt(maxsize, start, events[..|events| - 1], i);
      assert events[..|events| - 1][..i] == events[..i];
    }
  }

  /** Between two puts, gets come out by priority and then oldest first: HIGH, MEDIUM, LOW. */
  lemma GetsComeInOrder(maxsize: nat, start: Bag, events: seq<Event>, i: nat, j: nat)
    requires Legal(maxsize, start, events) && i < j < |events|
    requires forall k :: i <= k <= j ==> events[k].Take?
    requires events[j].taken.Some?
    ensures events[i].taken.Some?
    ensures var (first, second) := (events[i].taken.value, events[j].taken.value);
            && !MoreUrgent(second.priority, first.priority)
            && (first.priority == second.priority ==> first.requestedAt <= second.requestedAt)
  {
    LegalAt(maxsize, start, events, i);
    LegalAt(maxsize, start, events, j);
    HeldShrinks(start, events, i, j, events[j].taken.value);
    assert !Before(events[j].taken.value, events[i].taken.value);
  }
}
