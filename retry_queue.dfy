/** The retry drain: the queue is processed strictly front first; an entry
    whose push succeeds leaves the queue, one whose push fails goes to the
    back. Push outcomes are an input sequence consumed one per attempt; the
    drain stops when the queue is empty or the outcomes run out. */
module RetryQueue {

  /** What a drain did: the entries pushed successfully, in the order of
      their successful pushes, and the queue left behind. */
  datatype Drained<T> = Drained(pushed: seq<T>, rest: seq<T>)

  /** Drain `queue` with one outcome per push attempt (true = the push
      succeeded); at most one entry is pushed per attempt. */
  function Drain<T>(queue: seq<T>, outcomes: seq<bool>): (d: Drained<T>)
    ensures |d.pushed| <= |outcomes|
    decreases |outcomes|
  {
    if queue == [] || outcomes == [] then Drained([], queue)
    else
      if outcomes[0] then
        var d := Drain(queue[1..], outcomes[1..]);
        Drained([queue[0]] + d.pushed, d.rest)
      else
        Drain(queue[1..] + [queue[0]], outcomes[1..])
  }

  /** No entry is ever dropped: each queued entry ends up pushed or still
      queued, exactly as many times as it was queued. */
  lemma {:induction false} DrainKeepsEveryEntry<T>(queue: seq<T>, outcomes: seq<bool>)
    ensures var d := Drain(queue, outcomes);
            multiset(d.pushed) + multiset(d.rest) == multiset(queue)
    decreases |outcomes|
  {
    if queue != [] && outcomes != [] {
      assert queue == [queue[0]] + queue[1..];
      if outcomes[0] {
        DrainKeepsEveryEntry(queue[1..], outcomes[1..]);
      } else {
        DrainKeepsEveryEntry(queue[1..] + [queue[0]], outcomes[1..]);
      }
    }
  }

  /** The entries of `q` whose outcome is `ok`, in queue order. */
  function Select<T>(q: seq<T>, outcomes: seq<bool>, ok: bool): (s: seq<T>)
    requires |outcomes| == |q|
    decreases |q|
  {
    if q == [] then []
    else (if outcomes[0] == ok then [q[0]] else []) + Select(q[1..], outcomes[1..], ok)
  }

  /** The successful and the failed entries split `q`: every entry is in
      exactly one of the two selections, as often as it occurs in `q`. */
  lemma {:induction false} SelectPartition<T>(q: seq<T>, outcomes: seq<bool>)
    requires |outcomes| == |q|
    ensures multiset(Select(q, outcomes, true)) + multiset(Select(q, outcomes, false)) == multiset(q)
    decreases |q|
  {
    if q != [] {
      SelectPartition(q[1..], outcomes[1..]);
      assert q == [q[0]] + q[1..];
    }
  }

  /** Only queued entries are ever pushed. */
  lemma PushedWasQueued<T>(queue: seq<T>, outcomes: seq<bool>, x: T)
    requires x in Drain(queue, outcomes).pushed
    ensures x in queue
  {
    var d := Drain(queue, outcomes);
    DrainKeepsEveryEntry(queue, outcomes);
    assert x in multiset(d.pushed);
    assert x in multiset(d.pushed) + multiset(d.rest);
    assert x in multiset(queue);
  }

  /** A drain that empties the queue has pushed every queued entry. */
  lemma CompletedDrainPushedAll<T>(queue: seq<T>, outcomes: seq<bool>, x: T)
    requires Drain(queue, outcomes).rest == []
    requires x in queue
    ensures x in Drain(queue, outcomes).pushed
  {
    DrainKeepsEveryEntry(queue, outcomes);
    assert x in multiset(queue);
  }

  /** An entry queued once is, after a drain that empties the queue,
      pushed exactly once and no longer queued, however many times its
      push failed before. */
  lemma CompletedDrainPushesOnce<T>(queue: seq<T>, outcomes: seq<bool>, x: T)
    requires Drain(queue, outcomes).rest == []
    requires multiset(queue)[x] == 1
    ensures multiset(Drain(queue, outcomes).pushed)[x] == 1
    ensures x !in Drain(queue, outcomes).rest
  {
    DrainKeepsEveryEntry(queue, outcomes);
  }

  /** `total` is what a drain does when `done` have already been pushed and
      what is left is draining `view` with `outcomes`. */
  ghost predicate DrainsTo<T>(total: Drained<T>, done: seq<T>, view: seq<T>, outcomes: seq<bool>) {
    var d := Drain(view, outcomes);
    total == Drained(done + d.pushed, d.rest)
  }

  /** One attempt keeps `DrainsTo`: a success moves the front entry to
      `done`, a failure sends it to the back. */
  lemma DrainStep<T>(total: Drained<T>, done: seq<T>, view: seq<T>, outcomes: seq<bool>)
    requires view != [] && outcomes != []
    requires DrainsTo(total, done, view, outcomes)
    ensures outcomes[0] ==> DrainsTo(total, done + [view[0]], view[1..], outcomes[1..])
    ensures !outcomes[0] ==> DrainsTo(total, done, view[1..] + [view[0]], outcomes[1..])
  {
    if outcomes[0] {
      var d := Drain(view[1..], outcomes[1..]);
      assert done + ([view[0]] + d.pushed) == (done + [view[0]]) + d.pushed;
    }
  }

  /** Selecting one more entry, walking `q` from the front: `acc` is what
      was selected from the entries before `i`. */
  lemma SelectAdvance<T>(q: seq<T>, outcomes: seq<bool>, i: nat, ok: bool, acc: seq<T>)
    requires i < |q| == |outcomes|
    requires Select(q, outcomes, ok) == acc + Select(q[i..], outcomes[i..], ok)
    ensures outcomes[i] == ok ==> Select(q, outcomes, ok) == (acc + [q[i]]) + Select(q[i + 1..], outcomes[i + 1..], ok)
    ensures outcomes[i] != ok ==> Select(q, outcomes, ok) == acc + Select(q[i + 1..], outcomes[i + 1..], ok)
  {
    assert q[i..][0] == q[i] && q[i..][1..] == q[i + 1..];
    assert outcomes[i..][0] == outcomes[i] && outcomes[i..][1..] == outcomes[i + 1..];
    var later := Select(q[i + 1..], outcomes[i + 1..], ok);
    if outcomes[i] == ok {
      assert acc + ([q[i]] + later) == (acc + [q[i]]) + later;
    } else {
      assert [] + later == later;
    }
  }

  /** FIFO: the first `n` attempts are made on the first `n` entries, in
      order; the successful ones are pushed in that order and the failed
      ones go to the back, keeping their relative order, behind the entries
      not yet attempted. */
  lemma {:induction false} DrainRound<T>(q: seq<T>, outcomes: seq<bool>, n: nat)
    requires n <= |q| && n <= |outcomes|
    ensures var later := Drain(q[n..] + Select(q[..n], outcomes[..n], false), outcomes[n..]);
            Drain(q, outcomes) == Drained(Select(q[..n], outcomes[..n], true) + later.pushed, later.rest)
    decreases n
  {
    if n == 0 {
      assert q[n..] + Select(q[..n], outcomes[..n], false) == q;
    } else if outcomes[0] {
      DrainRoundSuccess(q, outcomes, n);
    } else {
      DrainRoundFailure(q, outcomes, n);
    }
  }

  /** The first `n` entries and outcomes, seen from the second one on. */
  lemma SliceTail<T>(q: seq<T>, outcomes: seq<bool>, n: nat)
    requires 0 < n <= |q| && n <= |outcomes|
    ensures q[..n][1..] == q[1..][..n - 1] && q[..n][0] == q[0] && q[1..][n - 1..] == q[n..]
    ensures outcomes[..n][1..] == outcomes[1..][..n - 1] && outcomes[..n][0] == outcomes[0]
    ensures outcomes[1..][n - 1..] == outcomes[n..]
  {
  }

  /** The round lemma when the first attempt succeeds. */
  lemma {:induction false} DrainRoundSuccess<T>(q: seq<T>, outcomes: seq<bool>, n: nat)
    requires 0 < n <= |q| && n <= |outcomes| && outcomes[0]
    ensures var later := Drain(q[n..] + Select(q[..n], outcomes[..n], false), outcomes[n..]);
            Drain(q, outcomes) == Drained(Select(q[..n], outcomes[..n], true) + later.pushed, later.rest)
    decreases n, 0
  {
    var tail, otail := q[1..], outcomes[1..];
    SliceTail(q, outcomes, n);
    DrainRound(tail, otail, n - 1);
    var later := Drain(tail[n - 1..] + Select(tail[..n - 1], otail[..n - 1], false), otail[n - 1..]);
    assert Drain(tail, otail) == Drained(Select(tail[..n - 1], otail[..n - 1], true) + later.pushed, later.rest);
    assert Select(q[..n], outcomes[..n], true) == [q[0]] + Select(tail[..n - 1], otail[..n - 1], true);
    assert Select(q[..n], outcomes[..n], false) == Select(tail[..n - 1], otail[..n - 1], false);
  }

  /** The round lemma when the first attempt fails. */
  lemma {:induction false} DrainRoundFailure<T>(q: seq<T>, outcomes: seq<bool>, n: nat)
    requires 0 < n <= |q| && n <= |outcomes| && !outcomes[0]
    ensures var later := Drain(q[n..] + Select(q[..n], outcomes[..n], false), outcomes[n..]);
            Drain(q, outcomes) == Drained(Select(q[..n], outcomes[..n], true) + later.pushed, later.rest)
    decreases n, 0
  {
    var rotated, otail := q[1..] + [q[0]], outcomes[1..];
    SliceTail(q, outcomes, n);
    assert rotated[..n - 1] == q[1..][..n - 1];
    assert rotated[n - 1..] == q[n..] + [q[0]];
    DrainRound(rotated, otail, n - 1);
    var failed := Select(q[1..][..n - 1], otail[..n - 1], false);
    assert Select(q[..n], outcomes[..n], true) == Select(q[1..][..n - 1], otail[..n - 1], true);
    assert Select(q[..n], outcomes[..n], false) == [q[0]] + failed;
    assert rotated[n - 1..] + failed == q[n..] + Select(q[..n], outcomes[..n], false);
  }

  /** When every attempt succeeds, the whole queue is pushed in queue order
      and nothing is left behind. */
  lemma {:induction false} DrainAllSucceed<T>(q: seq<T>, outcomes: seq<bool>)
    requires |outcomes| >= |q|
    requires forall i :: 0 <= i < |outcomes| ==> outcomes[i]
    ensures Drain(q, outcomes) == Drained(q, [])
    decreases |q|
  {
    if q != [] {
      DrainAllSucceed(q[1..], outcomes[1..]);
      assert [q[0]] + q[1..] == q;
    }
  }

  /** A failed entry loses its place: in the queue `[a, b]`, when the push
      of `a` fails and the next two succeed, `b` is pushed before `a`. */
  lemma FailedEntryPushedAfterLaterOne<T>(a: T, b: T)
    ensures Drain([a, b], [false, true, true]) == Drained([b, a], [])
  {
    assert [a, b][1..] + [a] == [b, a];
    assert [false, true, true][1..] == [true, true];
    assert Drain([b, a], [true, true]) == Drained([b, a], []) by {
      assert [b, a][1..] == [a] && [true, true][1..] == [true];
      assert Drain([a], [true]) == Drained([a], []) by {
        assert [a][1..] == [] && [true][1..] == [];
      }
    }
  }

  /** An entry that fails `failures` times and then succeeds is pushed once
      and is no longer queued. */
  lemma {:induction false} RetryUntilSuccess<T>(x: T, failures: nat)
    ensures Drain([x], seq(failures, _ => false) + [true]) == Drained([x], [])
    decreases failures
  {
    if failures > 0 {
      var o := seq(failures, _ => false) + [true];
      assert o[0] == false;
      assert o[1..] == seq(failures - 1, _ => false) + [true];
      assert [x][1..] + [x] == [x];
      RetryUntilSuccess(x, failures - 1);
    }
  }
}
