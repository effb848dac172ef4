/**
 * The visited registry, `SafeSet` in main.py: the set of URLs ever admitted to
 * the crawl, guarded by a mutex (each method is one atomic step here) and bounded
 * by a lifetime counter that `batch_insert` advances once per list entry.
 */
module Visited {
  import opened Types

  /** The distinct URLs of a list. */
  function ElementsOf(xs: seq<Url>): set<Url>
  {
    set x | x in xs
  }

  /** A list has at most as many distinct URLs as entries. */
  lemma {:induction false} ElementsOfBound(xs: seq<Url>)
    ensures |ElementsOf(xs)| <= |xs|
    decreases |xs|
  {
    if xs != [] {
      ElementsOfBound(xs[1..]);
      assert ElementsOf(xs) == ElementsOf(xs[1..]) + {xs[0]};
    }
  }

  /** A snapshot of a SafeSet: the visited URLs, the limit and the admission counter. */
  datatype VisitedState = VisitedState(members: set<Url>, limit: int, count: nat)
  {
    /** Every member was counted when it went in, so the counter bounds the size. */
    predicate Valid() {
      |members| <= count
    }

    /** The answer `check_and_insert(x)` gives in this state. */
    predicate Admits(x: Url) {
      count < limit && x !in members
    }

    /** The state after `check_and_insert(x)`: changed only when the URL is admitted. */
    function CheckAndInsert(x: Url): (r: VisitedState)
      ensures r.limit == limit
      ensures members <= r.members
      ensures x in r.members <==> x in members || Admits(x)
      ensures Admits(x) || r == this
      ensures Valid() ==> r.Valid()
    {
      if count >= limit || x in members then this
      else VisitedState(members + {x}, limit, count + 1)
    }

    /** The state after `batch_insert(xs)`: every URL goes in, each entry is counted. */
    function BatchInsert(xs: seq<Url>): (r: VisitedState)
      ensures r.limit == limit && r.count == count + |xs|
      ensures forall x :: x in r.members <==> x in members || x in xs
      ensures Valid() ==> r.Valid()
    {
      ElementsOfBound(xs);
      VisitedState(members + ElementsOf(xs), limit, count + |xs|)
    }
  }

  /** One call on the registry, for reasoning about sequences of calls. */
  datatype Op = Admit(x: Url) | Seed(xs: seq<Url>)

  function Step(s: VisitedState, op: Op): VisitedState
  {
    match op
    case Admit(x) => s.CheckAndInsert(x)
    case Seed(xs) => s.BatchInsert(xs)
  }

  /** The state after running `ops` in order from `s`. */
  function Replay(s: VisitedState, ops: seq<Op>): VisitedState
    decreases |ops|
  {
    if ops == [] then s else Replay(Step(s, ops[0]), ops[1..])
  }

  /** How many of the `check_and_insert(u)` calls in `ops` return true. */
  function Admissions(s: VisitedState, ops: seq<Op>, u: Url): nat
    decreases |ops|
  {
    if ops == [] then 0
    else
      (if ops[0] == Admit(u) && s.Admits(u) then 1 else 0)
      + Admissions(Step(s, ops[0]), ops[1..], u)
  }

  predicate NoSeed(ops: seq<Op>)
  {
    forall i :: 0 <= i < |ops| ==> !ops[i].Seed?
  }

  /** No call ever removes a URL from the registry. */
  lemma {:induction false} ReplayKeepsMembers(s: VisitedState, ops: seq<Op>)
    ensures s.members <= Replay(s, ops).members
    decreases |ops|
  {
    if ops != [] {
      ReplayKeepsMembers(Step(s, ops[0]), ops[1..]);
    }
  }

  /** Every sequence of calls keeps the size within the admission counter. */
  lemma {:induction false} ReplayKeepsValid(s: VisitedState, ops: seq<Op>)
    requires s.Valid()
    ensures Replay(s, ops).Valid()
    decreases |ops|
  {
    if ops != [] {
      ReplayKeepsValid(Step(s, ops[0]), ops[1..]);
    }
  }

  /**
   * Deduplication: in any sequence of calls, `check_and_insert(u)` returns true at
   * most once, and never for a URL that was already present.
   */
  lemma {:induction false} AdmitsAtMostOnce(s: VisitedState, ops: seq<Op>, u: Url)
    ensures Admissions(s, ops, u) <= 1
    ensures u in s.members ==> Admissions(s, ops, u) == 0
    decreases |ops|
  {
    if ops != [] {
      var t := Step(s, ops[0]);
      AdmitsAtMostOnce(t, ops[1..], u);
      if ops[0] == Admit(u) && s.Admits(u) {
        assert u in t.members;
      }
    }
  }

  /**
   * Once `check_and_insert(u)` has returned true, every later `check_and_insert(u)`
   * returns false, whatever calls come in between.
   */
  lemma LaterAdmitsRefused(s: VisitedState, ops: seq<Op>, u: Url)
    requires s.Admits(u)
    ensures !Replay(s.CheckAndInsert(u), ops).Admits(u)
  {
    ReplayKeepsMembers(s.CheckAndInsert(u), ops);
  }

  /**
   * Without `batch_insert`, the counter never passes the larger of its start and the
   * limit, so neither does the number of visited URLs.
   */
  lemma {:induction false} AdmitsRespectLimit(s: VisitedState, ops: seq<Op>)
    requires s.Valid() && NoSeed(ops)
    ensures Replay(s, ops).count <= if s.count < s.limit then s.limit else s.count
    ensures |Replay(s, ops).members| <= if s.count < s.limit then s.limit else s.count
    decreases |ops|
  {
    if ops != [] {
      var t := Step(s, ops[0]);
      assert !ops[0].Seed?;
      assert NoSeed(ops[1..]) by {
        forall i | 0 <= i < |ops[1..]| ensures !ops[1..][i].Seed? {
          assert ops[1..][i] == ops[i + 1];
        }
      }
      AdmitsRespectLimit(t, ops[1..]);
      ReplayKeepsValid(t, ops[1..]);
    }
  }

  /**
   * `batch_insert` counts duplicate entries: seeding an empty registry with the same
   * URL twice leaves one member and a counter of two.
   */
  lemma BatchInsertCountsDuplicates(limit: int, u: Url)
    ensures var r := VisitedState({}, limit, 0).BatchInsert([u, u]);
      r.members == {u} && r.count == 2
  {
    assert ElementsOf([u, u]) == {u};
  }

  /** The shared visited-set object of main.py. */
  class SafeSet {
    var members: set<Url>
    const limit: int
    var count: nat

    /** The value this object currently stands for. */
    function State(): VisitedState
      reads this
    {
      VisitedState(members, limit, count)
    }

    ghost predicate Valid()
      reads this
    {
      State().Valid()
    }

    constructor (limit: int)
      ensures Valid()
      ensures members == {} && this.limit == limit && count == 0
    {
      members := {};
      this.limit := limit;
      count := 0;
    }

    /** `batch_insert`: adds every URL and counts every entry, duplicates included. */
    method BatchInsert(items: seq<Url>)
      requires Valid()
      modifies this
      ensures Valid()
      ensures members == old(members) + ElementsOf(items) && count == old(count) + |items|
      ensures State() == old(State()).BatchInsert(items)
    {
      for i := 0 to |items|
        invariant members == old(members) + ElementsOf(items[..i])
        invariant count == old(count) + i
      {
        assert items[..i + 1] == items[..i] + [items[i]];
        count := count + 1;
        members := members + {items[i]};
      }
      assert items[..|items|] == items;
      ElementsOfBound(items);
    }

    /**
     * `check_and_insert`: true exactly when the counter is below the limit and the URL
     * is absent; then the URL is added and counted, otherwise nothing changes.
     */
    method CheckAndInsert(item: Url) returns (admitted: bool)
      requires Valid()
      modifies this
      ensures Valid()
      ensures admitted <==> old(count) < limit && item !in old(members)
      ensures admitted ==> members == old(members) + {item} && count == old(count) + 1
      ensures !admitted ==> members == old(members) && count == old(count)
      ensures admitted == old(State()).Admits(item) && State() == old(State()).CheckAndInsert(item)
    {
      if count >= limit || Contains(item) {
        return false;
      }
      count := count + 1;
      members := members + {item};
      return true;
    }

    /** `contains`: membership in the visited set. */
    function Contains(item: Url): (b: bool)
      reads this
      ensures b <==> item in members
    {
      item in members
    }
  }
}
