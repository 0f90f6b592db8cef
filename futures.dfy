/** CompletableFuture as the core uses it, with a future named by its call number: the first
    completion wins, `forEach(completeExceptionally)` over a table of waiting calls, and the
    id counter every client draws request ids from. */
module Futures {
  import opened Text
  import opened Rpc

  /** The number of calls after which the 32-bit id counter returns to an id already issued. */
  const IdSpace: nat := 0x1_0000_0000

  /** The id the counter hands to call `c`: it starts at 1 and wraps like a Java int. */
  function IdOf(c: nat): int {
    Wrap32(c + 1)
  }

  lemma IdOfSmall(c: nat)
    requires c < IdSpace
    ensures IdOf(c) == if c + 1 <= Int32Max then c + 1 else c + 1 - IdSpace
  {
  }

  /** The counter's increment: the id after call `c`'s is call `c + 1`'s. */
  lemma IdOfNext(c: nat)
    ensures Wrap32(IdOf(c) + 1) == IdOf(c + 1)
  {
    var x := c + 1;
    var q := (x - Int32Min) / 0x1_0000_0000;
    assert IdOf(c) == x - q * 0x1_0000_0000;
    assert (IdOf(c) + 1 - Int32Min) % 0x1_0000_0000 == (x + 1 - Int32Min) % 0x1_0000_0000 by {
      assert IdOf(c) + 1 - Int32Min == (x + 1 - Int32Min) - q * 0x1_0000_0000;
    }
  }

  /** Ids of different calls differ as long as the counter has not gone all the way round. */
  lemma IdsDistinct(a: nat, b: nat)
    requires a < b < IdSpace
    ensures IdOf(a) != IdOf(b)
  {
    IdOfSmall(a);
    IdOfSmall(b);
  }

  /** CompletableFuture.complete / completeExceptionally: the first completion wins. */
  function Complete(outcomes: map<nat, Completion>, call: nat, c: Completion): (r: map<nat, Completion>)
    ensures call in r && r.Keys == outcomes.Keys + {call}
    ensures call in outcomes ==> r == outcomes
    ensures forall k :: k in outcomes ==> r[k] == outcomes[k]
  {
    if call in outcomes then outcomes else outcomes[call := c]
  }

  /** Every call in `calls` completed with `reason`, unless it had completed already. */
  function FailCalls(outcomes: map<nat, Completion>, calls: set<nat>, reason: string): (r: map<nat, Completion>)
    ensures r.Keys == outcomes.Keys + calls
    ensures forall c :: c in outcomes ==> r[c] == outcomes[c]
    ensures forall c :: c in calls && c !in outcomes ==> r[c] == Fault(reason)
  {
    map c | c in outcomes.Keys + calls :: if c in outcomes then outcomes[c] else Fault(reason)
  }

  /** A call among the futures of a pending table waits under some id of that table. */
  lemma WaitingCallHasId(table: map<int, nat>, call: nat)
    requires call in table.Values
    ensures exists id :: id in table && table[id] == call
  {
    if forall id :: id in table ==> table[id] != call {
      assert false;
    }
  }

  /** `table.values().forEach(f -> f.completeExceptionally(e))`. */
  method FailEach(outcomes: map<nat, Completion>, table: map<int, nat>, reason: string)
    returns (r: map<nat, Completion>)
    ensures r == FailCalls(outcomes, table.Values, reason)
  {
    r := outcomes;
    var rest := table.Keys;
    ghost var done: set<nat> := {};
    FailNothing(outcomes, reason);
    while rest != {}
      invariant rest <= table.Keys
      invariant done <= table.Values
      invariant forall id :: id in table && id !in rest ==> table[id] in done
      invariant r == FailCalls(outcomes, done, reason)
      decreases |rest|
    {
      SweepHasIdLeft(table, rest);
      var id: int :| id in rest;
      SweepStep(table, rest, done, id);
      FailCallsStep(outcomes, done, table[id], reason);
      r := Complete(r, table[id], Fault(reason));
      rest := rest - {id};
      done := done + {table[id]};
    }
    ValuesCovered(table, done);
  }

  /** While the sweep has ids left, one of them is an id of the table. */
  lemma SweepHasIdLeft(table: map<int, nat>, rest: set<int>)
    requires rest <= table.Keys && rest != {}
    ensures exists id :: id in rest && id in table
  {
    if forall id :: id !in rest {
      assert false;
    }
  }

  /** Taking one more id off the table keeps the sweep's bookkeeping. */
  lemma SweepStep(table: map<int, nat>, rest: set<int>, done: set<nat>, id: int)
    requires id in rest && rest <= table.Keys && done <= table.Values
    requires forall i :: i in table && i !in rest ==> table[i] in done
    ensures rest - {id} <= table.Keys && done + {table[id]} <= table.Values
    ensures forall i :: i in table && i !in rest - {id} ==> table[i] in done + {table[id]}
  {
    assert table[id] in table.Values;
  }

  /** A set that holds the call under every id holds every waiting call. */
  lemma ValuesCovered(table: map<int, nat>, done: set<nat>)
    requires done <= table.Values
    requires forall id :: id in table ==> table[id] in done
    ensures done == table.Values
  {
    forall call: nat | call in table.Values ensures call in done {
      WaitingCallHasId(table, call);
    }
  }

  lemma FailNothing(outcomes: map<nat, Completion>, reason: string)
    ensures FailCalls(outcomes, {}, reason) == outcomes
  {
    assert FailCalls(outcomes, {}, reason).Keys == outcomes.Keys;
  }

  /** Failing one more call extends the sweep by that call. */
  lemma FailCallsStep(outcomes: map<nat, Completion>, done: set<nat>, c: nat, reason: string)
    ensures Complete(FailCalls(outcomes, done, reason), c, Fault(reason)) == FailCalls(outcomes, done + {c}, reason)
  {
    var a := Complete(FailCalls(outcomes, done, reason), c, Fault(reason));
    var b := FailCalls(outcomes, done + {c}, reason);
    assert a.Keys == b.Keys;
    forall k | k in a ensures a[k] == b[k] {
    }
  }
}
