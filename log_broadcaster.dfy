/** A server's log stream: a buffer of the most recent 200 lines that every new subscriber is
    replayed first, and the list of live subscribers that each published line is sent to.
    A subscriber (a Multi emitter) is named by a number; what it has been sent is recorded per
    subscriber. */
module Logs {

  const MaxBufferSize: nat := 200

  /** The last `n` elements of `s`, or all of `s` when it is shorter. */
  function LastN<T>(s: seq<T>, n: nat): (r: seq<T>)
    ensures |r| == if |s| <= n then |s| else n
  {
    if |s| <= n then s else s[|s| - n..]
  }

  /** Keeping the last `n` after each append is keeping the last `n` of the whole history. */
  lemma LastNAppend<T>(s: seq<T>, x: T, n: nat)
    ensures LastN(LastN(s, n) + [x], n) == LastN(s + [x], n)
  {
    var t := LastN(s, n);
    assert t + [x] == (s + [x])[|s| - |t|..];
  }

  /** `s` without the first occurrence of `x`, as List.remove(Object) does it. */
  function RemoveFirst<T(==)>(s: seq<T>, x: T): (r: seq<T>)
    ensures x in s ==> |r| == |s| - 1
    ensures x !in s ==> r == s
    ensures forall y :: y in r ==> y in s
    ensures forall y :: y in s && y != x ==> y in r
  {
    if s == [] then []
    else if s[0] == x then s[1..]
    else [s[0]] + RemoveFirst(s[1..], x)
  }

  predicate Distinct<T(==)>(s: seq<T>) {
    forall i, j :: 0 <= i < j < |s| ==> s[i] != s[j]
  }

  lemma {:induction false} RemoveFirstDistinct<T>(s: seq<T>, x: T)
    requires Distinct(s)
    ensures Distinct(RemoveFirst(s, x)) && x !in RemoveFirst(s, x)
  {
    if s != [] && s[0] != x {
      RemoveFirstDistinct(s[1..], x);
      assert s[0] !in s[1..];
    } else if s != [] {
      assert s[0] !in s[1..];
    }
  }

  /** What a subscriber is sent when it joins after `from` lines and stays until `until` lines
      have been published: the buffer as it then stood, then every later line, in order. */
  function Witnessed(history: seq<string>, from: nat, until: nat): seq<string>
    requires from <= until <= |history|
  {
    LastN(history[..from], MaxBufferSize) + history[from..until]
  }

  /** How many lines a subscriber has witnessed: up to its leaving, or all of them while live. */
  function Until(history: seq<string>, left: map<nat, nat>, e: nat): nat {
    if e in left then left[e] else |history|
  }

  /** Each subscriber has been sent exactly what it witnessed. */
  predicate Accounts(history: seq<string>, received: map<nat, seq<string>>, joined: map<nat, nat>, left: map<nat, nat>) {
    && received.Keys == joined.Keys
    && forall e :: e in received ==>
      && joined[e] <= Until(history, left, e) <= |history|
      && received[e] == Witnessed(history, joined[e], Until(history, left, e))
  }

  /** The line sent to every live subscriber, and to no other. */
  function Delivered(received: map<nat, seq<string>>, live: seq<nat>, message: string): (r: map<nat, seq<string>>)
    ensures r.Keys == received.Keys
  {
    map e | e in received :: if e in live then received[e] + [message] else received[e]
  }

  /** Appending to the history leaves every earlier prefix and window as it was and extends the
      window that reaches the end by the new line. */
  lemma HistoryAppend<T>(history: seq<T>, x: T, from: nat, until: nat)
    requires from <= until <= |history|
    ensures (history + [x])[..from] == history[..from]
    ensures (history + [x])[from..until] == history[from..until]
    ensures (history + [x])[from..|history| + 1] == history[from..] + [x]
  {
  }

  /** The broadcaster's invariant over its state: the buffer is the last 200 lines published;
      the live subscribers are distinct and the rest have left; each subscriber was sent exactly
      what it witnessed. */
  predicate Invariant(buffer: seq<string>, emitters: seq<nat>, received: map<nat, seq<string>>, nextSubscriber: nat,
                      published: seq<string>, joined: map<nat, nat>, left: map<nat, nat>)
  {
    && buffer == LastN(published, MaxBufferSize)
    && Distinct(emitters)
    && (forall e :: e in emitters ==> e in received && e !in left)
    && (forall e :: e in left ==> e in received && e !in emitters)
    && (forall e :: e in received ==> e < nextSubscriber && (e in emitters || e in left))
    && Accounts(published, received, joined, left)
  }

  /** Publishing keeps the invariant: the buffer takes the line and the live subscribers, and
      only they, witness it. */
  lemma PublishKeeps(buffer: seq<string>, emitters: seq<nat>, received: map<nat, seq<string>>, nextSubscriber: nat,
                     published: seq<string>, joined: map<nat, nat>, left: map<nat, nat>, message: string)
    requires Invariant(buffer, emitters, received, nextSubscriber, published, joined, left)
    ensures Invariant(LastN(buffer + [message], MaxBufferSize), emitters, Delivered(received, emitters, message),
                      nextSubscriber, published + [message], joined, left)
  {
    LastNAppend(published, message, MaxBufferSize);
    AccountsPublish(published, message, received, joined, left, emitters);
  }

  /** Publishing extends each live subscriber's account by the line and leaves the others'. */
  lemma AccountsPublish(history: seq<string>, message: string, received: map<nat, seq<string>>,
                        joined: map<nat, nat>, left: map<nat, nat>, live: seq<nat>)
    requires Accounts(history, received, joined, left)
    requires forall e :: e in received ==> (e in live <==> e !in left)
    ensures Accounts(history + [message], Delivered(received, live, message), joined, left)
  {
    var h := history + [message];
    var r := Delivered(received, live, message);
    forall e | e in r
      ensures joined[e] <= Until(h, left, e) <= |h|
      ensures r[e] == Witnessed(h, joined[e], Until(h, left, e))
    {
      HistoryAppend(history, message, joined[e], Until(history, left, e));
    }
  }

  /** Subscribing keeps the invariant: the new subscriber is sent the buffer and joins at the end. */
  lemma SubscribeKeeps(buffer: seq<string>, emitters: seq<nat>, received: map<nat, seq<string>>, nextSubscriber: nat,
                       published: seq<string>, joined: map<nat, nat>, left: map<nat, nat>)
    requires Invariant(buffer, emitters, received, nextSubscriber, published, joined, left)
    ensures nextSubscriber !in received
    ensures Invariant(buffer, emitters + [nextSubscriber], received[nextSubscriber := buffer], nextSubscriber + 1,
                      published, joined[nextSubscriber := |published|], left)
  {
    assert published[..|published|] == published;
    assert published[|published|..|published|] == [];
  }

  /** Terminating keeps the invariant: the subscriber, if live, leaves at the current history. */
  lemma TerminateKeeps(buffer: seq<string>, emitters: seq<nat>, received: map<nat, seq<string>>, nextSubscriber: nat,
                       published: seq<string>, joined: map<nat, nat>, left: map<nat, nat>, e: nat)
    requires Invariant(buffer, emitters, received, nextSubscriber, published, joined, left)
    ensures Invariant(buffer, RemoveFirst(emitters, e), received, nextSubscriber, published, joined,
                      if e in emitters then left[e := |published|] else left)
  {
    RemoveFirstDistinct(emitters, e);
  }

  class LogBroadcaster {
    /** The ArrayDeque of recent lines, oldest first. */
    var buffer: seq<string>
    /** The live subscribers, in subscription order. */
    var emitters: seq<nat>
    /** Every line each subscriber, live or terminated, has been sent, in order. */
    var received: map<nat, seq<string>>
    var nextSubscriber: nat
    /** Every line ever published, in order. */
    ghost var published: seq<string>
    /** How many lines had been published when each subscriber joined, and when each
        terminated subscriber left. */
    ghost var joined: map<nat, nat>
    ghost var left: map<nat, nat>

    /** The buffer is the last 200 lines published; each subscriber was sent the buffer as it was
        when it joined and then every line published until it left, nothing else. */
    ghost predicate Valid()
      reads this
    {
      Invariant(buffer, emitters, received, nextSubscriber, published, joined, left)
    }

    constructor ()
      ensures Valid()
      ensures buffer == [] && emitters == [] && received == map[] && published == []
    {
      buffer := [];
      emitters := [];
      received := map[];
      nextSubscriber := 0;
      published := [];
      joined := map[];
      left := map[];
    }

    /** addToBuffer: append, then drop from the front while over the cap. */
    method AddToBuffer(message: string)
      modifies this`buffer
      ensures buffer == LastN(old(buffer) + [message], MaxBufferSize)
    {
      ghost var all := old(buffer) + [message];
      buffer := buffer + [message];
      while |buffer| > MaxBufferSize
        invariant buffer == all[|all| - |buffer|..]
        invariant |buffer| >= MaxBufferSize || buffer == all
        decreases |buffer|
      {
        buffer := buffer[1..];
      }
    }

    /** snapshot: a copy of the buffer, which holds the last 200 lines published. */
    method Snapshot() returns (r: seq<string>)
      requires Valid()
      ensures r == LastN(published, MaxBufferSize) && |r| <= MaxBufferSize
    {
      r := buffer;
    }

    /** publish: the line enters the buffer and is sent to every live subscriber. */
    method Publish(message: string)
      requires Valid()
      modifies this`buffer, this`received, this`published
      ensures Valid()
      ensures published == old(published) + [message]
      ensures buffer == LastN(published, MaxBufferSize)
      ensures received == Delivered(old(received), emitters, message)
    {
      AddToBuffer(message);
      published := published + [message];
      Deliver(message);
      PublishKeeps(old(buffer), emitters, old(received), nextSubscriber, old(published), joined, left, message);
    }

    /** The emit loop of publish: each live subscriber, and only those, is sent the line once. */
    method Deliver(message: string)
      requires Distinct(emitters) && forall e :: e in emitters ==> e in received
      modifies this`received
      ensures received == Delivered(old(received), emitters, message)
    {
      var i := 0;
      while i < |emitters|
        invariant i <= |emitters|
        invariant received == Delivered(old(received), emitters[..i], message)
        decreases |emitters| - i
      {
        var e := emitters[i];
        assert forall k :: 0 <= k < i ==> emitters[k] != e;
        assert emitters[..i + 1] == emitters[..i] + [e];
        received := received[e := received[e] + [message]];
        i := i + 1;
      }
      assert emitters[..i] == emitters;
    }

    /** stream(): a new subscriber is sent the snapshot, in order, and only then joins the list. */
    method Subscribe() returns (e: nat)
      requires Valid()
      modifies this`emitters, this`received, this`nextSubscriber, this`joined
      ensures Valid()
      ensures e !in old(received) && received == old(received)[e := buffer]
      ensures emitters == old(emitters) + [e]
    {
      SubscribeKeeps(buffer, emitters, received, nextSubscriber, published, joined, left);
      e := nextSubscriber;
      nextSubscriber := nextSubscriber + 1;
      received := received[e := buffer];
      joined := joined[e := |published|];
      emitters := emitters + [e];
    }

    /** onTermination: the subscriber leaves the list, the others stay in their order. */
    method Terminate(e: nat)
      requires Valid()
      modifies this`emitters, this`left
      ensures Valid()
      ensures emitters == RemoveFirst(old(emitters), e) && e !in emitters
      ensures forall x :: x in old(emitters) && x != e ==> x in emitters
    {
      TerminateKeeps(buffer, emitters, received, nextSubscriber, published, joined, left, e);
      RemoveFirstDistinct(emitters, e);
      if e in emitters {
        left := left[e := |published|];
      }
      emitters := RemoveFirst(emitters, e);
    }
  }
}
