/**
 * The crawl frontier, `SafeList` in main.py: a FIFO queue of URLs still to be
 * fetched, guarded by a mutex (each method is one atomic step here) and bounded
 * by a lifetime admission counter rather than by its current size.
 */
module Frontier {
  import opened Types

  /** A snapshot of a SafeList: the pending URLs, the limit and the admission counter. */
  datatype FrontierState = FrontierState(list: seq<Url>, limit: int, count: nat)
  {
    /** `count` grows with every admission and pops never lower it, so it bounds the size. */
    predicate Valid() {
      |list| <= count
    }

    /** `insert`: the URL goes to the back only while the counter is below the limit. */
    function Insert(x: Url): (r: FrontierState)
      ensures r.limit == limit && count <= r.count <= count + 1
      ensures Valid() ==> r.Valid()
    {
      if count >= limit then this else FrontierState(list + [x], limit, count + 1)
    }

    /** `batch_insert`: every URL goes to the back, whatever the limit. */
    function BatchInsert(xs: seq<Url>): (r: FrontierState)
      ensures r.limit == limit && r.count == count + |xs|
      ensures Valid() ==> r.Valid()
    {
      FrontierState(list + xs, limit, count + |xs|)
    }

    /** The URL `pop` returns, or None where `list.pop(0)` raises IndexError. */
    function Front(): (r: Option<Url>)
      ensures r.Some? <==> list != []
    {
      if list == [] then None else Some(list[0])
    }

    /** The state after `pop`; an empty frontier is left as it is. */
    function Pop(): (r: FrontierState)
      ensures r.limit == limit && r.count == count
      ensures Valid() ==> r.Valid()
    {
      if list == [] then this else FrontierState(list[1..], limit, count)
    }
  }

  /** One call on the frontier, for reasoning about sequences of calls. */
  datatype Op = Put(x: Url) | PutAll(xs: seq<Url>) | Take

  function Step(s: FrontierState, op: Op): FrontierState
  {
    match op
    case Put(x) => s.Insert(x)
    case PutAll(xs) => s.BatchInsert(xs)
    case Take => s.Pop()
  }

  /** The state after running `ops` in order from `s`. */
  function Replay(s: FrontierState, ops: seq<Op>): FrontierState
    decreases |ops|
  {
    if ops == [] then s else Replay(Step(s, ops[0]), ops[1..])
  }

  /** The URLs one call appends: `insert` only below the limit, `batch_insert` always. */
  function AppendedBy(s: FrontierState, op: Op): seq<Url>
  {
    match op
    case Put(x) => if s.count < s.limit then [x] else []
    case PutAll(xs) => xs
    case Take => []
  }

  /** The URL one call returns: `pop` on a non-empty frontier returns its front. */
  function TakenBy(s: FrontierState, op: Op): seq<Url>
  {
    if op.Take? && s.list != [] then [s.list[0]] else []
  }

  /** The URLs that the calls in `ops` append to the frontier, in order. */
  function Appended(s: FrontierState, ops: seq<Op>): seq<Url>
    decreases |ops|
  {
    if ops == [] then [] else AppendedBy(s, ops[0]) + Appended(Step(s, ops[0]), ops[1..])
  }

  /** The URLs that the `Take` calls in `ops` return, in order. */
  function Taken(s: FrontierState, ops: seq<Op>): seq<Url>
    decreases |ops|
  {
    if ops == [] then [] else TakenBy(s, ops[0]) + Taken(Step(s, ops[0]), ops[1..])
  }

  /** One call: what it returns, followed by what is left, is what was there plus what it appends. */
  lemma StepLaw(s: FrontierState, op: Op)
    ensures TakenBy(s, op) + Step(s, op).list == s.list + AppendedBy(s, op)
    ensures Step(s, op).count == s.count + |AppendedBy(s, op)|
  {
    if op.Take? && s.list != [] {
      assert s.list == [s.list[0]] + s.list[1..];
    }
  }

  predicate NoBatch(ops: seq<Op>)
  {
    forall i :: 0 <= i < |ops| ==> !ops[i].PutAll?
  }

  /** Every sequence of calls keeps the size within the admission counter. */
  lemma {:induction false} ReplayKeepsValid(s: FrontierState, ops: seq<Op>)
    requires s.Valid()
    ensures Replay(s, ops).Valid()
    decreases |ops|
  {
    if ops != [] {
      ReplayKeepsValid(Step(s, ops[0]), ops[1..]);
    }
  }

  /**
   * The queue law: what was taken, followed by what is still pending, is what was
   * pending at the start followed by what was appended, in the same order; and the
   * counter has grown by exactly the number of URLs appended.
   */
  lemma {:induction false} QueueLaw(s: FrontierState, ops: seq<Op>)
    ensures Taken(s, ops) + Replay(s, ops).list == s.list + Appended(s, ops)
    ensures Replay(s, ops).count == s.count + |Appended(s, ops)|
    ensures Replay(s, ops).limit == s.limit
    decreases |ops|
  {
    if ops != [] {
      var t := Step(s, ops[0]);
      QueueLaw(t, ops[1..]);
      StepLaw(s, ops[0]);
      Regroup(TakenBy(s, ops[0]), Taken(t, ops[1..]), Replay(t, ops[1..]).list,
              s.list, AppendedBy(s, ops[0]), t.list, Appended(t, ops[1..]));
    }
  }

  /** The bookkeeping step of QueueLaw: if a + m == s + b and m' + r == m + b', then a + m' + r == s + b + b'. */
  lemma Regroup(a: seq<Url>, m': seq<Url>, r: seq<Url>, s: seq<Url>, b: seq<Url>, m: seq<Url>, b': seq<Url>)
    requires a + m == s + b && m' + r == m + b'
    ensures (a + m') + r == s + (b + b')
  {
    calc {
      (a + m') + r;
      a + (m' + r);
      a + (m + b');
      (a + m) + b';
      (s + b) + b';
    }
  }

  /**
   * Without `batch_insert`, the counter never passes the larger of its start and the
   * limit, so neither does the size of the frontier.
   */
  lemma {:induction false} InsertsRespectLimit(s: FrontierState, ops: seq<Op>)
    requires s.Valid() && NoBatch(ops)
    ensures var r := Replay(s, ops);
      r.count <= if s.count < s.limit then s.limit else s.count
    ensures |Replay(s, ops).list| <= if s.count < s.limit then s.limit else s.count
    decreases |ops|
  {
    if ops != [] {
      var t := Step(s, ops[0]);
      assert NoBatch(ops[1..]) by {
        forall i | 0 <= i < |ops[1..]| ensures !ops[1..][i].PutAll? {
          assert ops[1..][i] == ops[i + 1];
        }
      }
      InsertsRespectLimit(t, ops[1..]);
      ReplayKeepsValid(t, ops[1..]);
    }
  }

  /** `batch_insert` ignores the limit: every URL is appended even on a full frontier. */
  lemma BatchInsertIgnoresLimit(s: FrontierState, xs: seq<Url>)
    requires s.count >= s.limit
    ensures s.BatchInsert(xs).list == s.list + xs
    ensures forall x :: s.Insert(x) == s
  {
  }

  /** The shared frontier object of main.py. */
  class SafeList {
    var list: seq<Url>
    const limit: int
    var count: nat

    /** The value this object currently stands for. */
    function State(): FrontierState
      reads this
    {
      FrontierState(list, limit, count)
    }

    ghost predicate Valid()
      reads this
    {
      State().Valid()
    }

    constructor (limit: int)
      ensures Valid()
      ensures list == [] && this.limit == limit && count == 0
    {
      list := [];
      this.limit := limit;
      count := 0;
    }

    /** `insert`: appends and counts the URL only while `count < limit`, else changes nothing. */
    method Insert(item: Url)
      requires Valid()
      modifies this
      ensures Valid()
      ensures old(count) < limit ==> list == old(list) + [item] && count == old(count) + 1
      ensures old(count) >= limit ==> list == old(list) && count == old(count)
      ensures State() == old(State()).Insert(item)
    {
      if count >= limit {
        return;
      }
      count := count + 1;
      list := list + [item];
    }

    /** `batch_insert`: appends every URL in order and counts each, with no limit check. */
    method BatchInsert(items: seq<Url>)
      requires Valid()
      modifies this
      ensures Valid()
      ensures list == old(list) + items && count == old(count) + |items|
      ensures State() == old(State()).BatchInsert(items)
    {
      count := count + |items|;
      list := list + items;
    }

    /**
     * `pop`: removes and returns the front URL, leaving the counter alone; on an
     * empty frontier Python raises IndexError, modelled as None and no change.
     */
    method Pop() returns (item: Option<Url>)
      requires Valid()
      modifies this
      ensures Valid()
      ensures old(list) != [] ==> item == Some(old(list)[0]) && list == old(list)[1..]
      ensures old(list) == [] ==> item == None && list == old(list)
      ensures count == old(count)
      ensures item == old(State()).Front() && State() == old(State()).Pop()
    {
      if list == [] {
        return None;
      }
      item := Some(list[0]);
      list := list[1..];
    }

    /** `is_empty`; a non-empty frontier has admitted at least one URL. */
    function IsEmpty(): (b: bool)
      reads this
      requires Valid()
      ensures b <==> |list| == 0
      ensures !b ==> count > 0
    {
      |list| == 0
    }
  }
}
