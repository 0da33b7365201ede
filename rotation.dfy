/**
 * The message-rotation rule shared by the auto-send loops: the cursor moves
 * to the next message only after a successful send, and returns to the first
 * message once the last one has been sent.
 */
module Rotation {

  /** One step of the cursor over `n` messages, as main.py writes it:
      add one, and go back to 0 once the end is reached. */
  function Next(i: nat, n: nat): (j: nat)
    requires i < n
    ensures j < n
    ensures j == 0 <==> i == n - 1
    ensures j != 0 ==> j == i + 1
  {
    if i + 1 >= n then 0 else i + 1
  }

  lemma MulMonotone(a: int, b: int, n: int)
    requires a <= b && n > 0
    ensures a * n <= b * n
  {
    var d := b - a;
    assert b * n == a * n + d * n;
    assert d * n >= 0;
  }

  lemma ModUnique(x: int, n: int, q: int, t: int)
    requires n > 0 && 0 <= t < n && x == q * n + t
    ensures x % n == t
  {
    var Q, T := x / n, x % n;
    assert x == Q * n + T;
    if q > Q {
      MulMonotone(Q + 1, q, n);
    } else if q < Q {
      MulMonotone(q + 1, Q, n);
    }
    assert q == Q;
  }

  /** The same step written as `(i + 1) % n`, as the PHP code and the other
      Python loops write it. */
  lemma {:induction false} NextIsModulo(i: nat, n: nat)
    requires i < n
    ensures Next(i, n) == (i + 1) % n
  {
    if i + 1 < n {
      ModUnique(i + 1, n, 0, i + 1);
    } else {
      ModUnique(i + 1, n, 1, 0);
    }
  }

  lemma ModSucc(a: nat, n: nat)
    requires n > 0
    ensures Next(a % n, n) == (a + 1) % n
  {
    var q, r := a / n, a % n;
    assert a == q * n + r;
    NextIsModulo(r, n);
    if r + 1 < n {
      ModUnique(a + 1, n, q, r + 1);
      ModUnique(r + 1, n, 0, r + 1);
    } else {
      ModUnique(a + 1, n, q + 1, 0);
      ModUnique(r + 1, n, 1, 0);
    }
  }

  /** The number of successful sends among the outcomes. */
  function Successes(outcomes: seq<bool>): (k: nat)
    ensures k <= |outcomes|
  {
    if outcomes == [] then 0 else (if outcomes[0] then 1 else 0) + Successes(outcomes[1..])
  }

  /** The message index attempted at each send, starting at `start`. */
  function Schedule(n: nat, start: nat, outcomes: seq<bool>): (r: seq<nat>)
    requires start < n
    ensures |r| == |outcomes|
    ensures forall j :: 0 <= j < |r| ==> r[j] < n
    decreases |outcomes|
  {
    if outcomes == [] then []
    else [start] + Schedule(n, if outcomes[0] then Next(start, n) else start, outcomes[1..])
  }

  /** Where the cursor is after the outcomes. */
  function After(n: nat, start: nat, outcomes: seq<bool>): (r: nat)
    requires start < n
    ensures r < n
    decreases |outcomes|
  {
    if outcomes == [] then start
    else After(n, if outcomes[0] then Next(start, n) else start, outcomes[1..])
  }

  /** One more outcome: the cursor advances on success and stays on failure. */
  lemma {:induction false} AfterSnoc(n: nat, start: nat, outcomes: seq<bool>, o: bool)
    requires start < n
    ensures After(n, start, outcomes + [o]) ==
      (var c := After(n, start, outcomes); if o then Next(c, n) else c)
    decreases |outcomes|
  {
    if outcomes != [] {
      assert (outcomes + [o])[1..] == outcomes[1..] + [o];
      AfterSnoc(n, if outcomes[0] then Next(start, n) else start, outcomes[1..], o);
    }
  }

  lemma {:induction false} ScheduleSnoc(n: nat, start: nat, outcomes: seq<bool>, o: bool)
    requires start < n
    ensures Schedule(n, start, outcomes + [o]) == Schedule(n, start, outcomes) + [After(n, start, outcomes)]
    decreases |outcomes|
  {
    if outcomes != [] {
      assert (outcomes + [o])[1..] == outcomes[1..] + [o];
      ScheduleSnoc(n, if outcomes[0] then Next(start, n) else start, outcomes[1..], o);
    }
  }

  lemma {:induction false} SuccessesSnoc(outcomes: seq<bool>, o: bool)
    ensures Successes(outcomes + [o]) == Successes(outcomes) + (if o then 1 else 0)
    decreases |outcomes|
  {
    if outcomes != [] {
      assert (outcomes + [o])[1..] == outcomes[1..] + [o];
      SuccessesSnoc(outcomes[1..], o);
    }
  }

  /** One more attempt of a send loop whose counters describe the first `i`
      outcomes: the attempt sends the message under the cursor, the cursor
      advances on success, and the success count grows by one on success. */
  lemma RunStep(n: nat, start: nat, outs: seq<bool>, i: nat)
    requires start < n && i < |outs|
    ensures var c := After(n, start, outs[..i]);
      && After(n, start, outs[..i + 1]) == (if outs[i] then Next(c, n) else c)
      && Schedule(n, start, outs[..i + 1]) == Schedule(n, start, outs[..i]) + [c]
      && Successes(outs[..i + 1]) == Successes(outs[..i]) + (if outs[i] then 1 else 0)
  {
    assert outs[..i + 1] == outs[..i] + [outs[i]];
    AfterSnoc(n, start, outs[..i], outs[i]);
    ScheduleSnoc(n, start, outs[..i], outs[i]);
    SuccessesSnoc(outs[..i], outs[i]);
  }

  /** After any run the cursor is the start moved forward by the number of
      successes, modulo the number of messages. */
  lemma {:induction false} AfterClosedForm(n: nat, start: nat, outcomes: seq<bool>)
    requires start < n
    ensures After(n, start, outcomes) == (start + Successes(outcomes)) % n
    decreases |outcomes|
  {
    if outcomes == [] {
      ModUnique(start, n, 0, start);
    } else {
      var p := outcomes[..|outcomes| - 1];
      var o := outcomes[|outcomes| - 1];
      assert outcomes == p + [o];
      AfterClosedForm(n, start, p);
      AfterSnoc(n, start, p, o);
      SuccessesSnoc(p, o);
      if o {
        ModSucc(start + Successes(p), n);
      }
    }
  }

  /** The j-th attempt sends the message at the start index moved forward by
      the successes before it. */
  lemma {:induction false} ScheduleClosedForm(n: nat, start: nat, outcomes: seq<bool>, j: nat)
    requires start < n && j < |outcomes|
    ensures Schedule(n, start, outcomes)[j] == (start + Successes(outcomes[..j])) % n
    decreases |outcomes|
  {
    var p := outcomes[..|outcomes| - 1];
    assert outcomes == p + [outcomes[|outcomes| - 1]];
    ScheduleSnoc(n, start, p, outcomes[|outcomes| - 1]);
    if j < |p| {
      ScheduleClosedForm(n, start, p, j);
      assert p[..j] == outcomes[..j];
    } else {
      assert outcomes[..j] == p;
      AfterClosedForm(n, start, p);
    }
  }

  /** A failed send is retried: the next attempt sends the same message. */
  lemma {:induction false} FailureRetries(n: nat, start: nat, outcomes: seq<bool>, j: nat)
    requires start < n && j + 1 < |outcomes| && !outcomes[j]
    ensures Schedule(n, start, outcomes)[j + 1] == Schedule(n, start, outcomes)[j]
  {
    ScheduleClosedForm(n, start, outcomes, j);
    ScheduleClosedForm(n, start, outcomes, j + 1);
    assert outcomes[..j + 1] == outcomes[..j] + [outcomes[j]];
    SuccessesSnoc(outcomes[..j], outcomes[j]);
  }

  /** A successful send moves the next attempt to the following message. */
  lemma {:induction false} SuccessAdvances(n: nat, start: nat, outcomes: seq<bool>, j: nat)
    requires start < n && j + 1 < |outcomes| && outcomes[j]
    ensures Schedule(n, start, outcomes)[j + 1] == Next(Schedule(n, start, outcomes)[j], n)
  {
    ScheduleClosedForm(n, start, outcomes, j);
    ScheduleClosedForm(n, start, outcomes, j + 1);
    assert outcomes[..j + 1] == outcomes[..j] + [outcomes[j]];
    SuccessesSnoc(outcomes[..j], outcomes[j]);
    ModSucc(start + Successes(outcomes[..j]), n);
  }

  function AllTrue(k: nat): (r: seq<bool>)
    ensures |r| == k && forall j :: 0 <= j < k ==> r[j]
  {
    seq(k, _ => true)
  }

  lemma {:induction false} SuccessesAllTrue(k: nat)
    ensures Successes(AllTrue(k)) == k
    decreases k
  {
    if k > 0 {
      assert AllTrue(k)[1..] == AllTrue(k - 1);
      SuccessesAllTrue(k - 1);
    }
  }

  /** A cycle of `n` successful sends from the first message sends every
      message once, in list order, and ends back at the first message. */
  lemma FullCycle(n: nat)
    requires n > 0
    ensures Schedule(n, 0, AllTrue(n)) == seq(n, j => j)
    ensures After(n, 0, AllTrue(n)) == 0
  {
    forall j | 0 <= j < n ensures Schedule(n, 0, AllTrue(n))[j] == j {
      ScheduleClosedForm(n, 0, AllTrue(n), j);
      assert AllTrue(n)[..j] == AllTrue(j);
      SuccessesAllTrue(j);
      ModUnique(j, n, 0, j);
    }
    AfterClosedForm(n, 0, AllTrue(n));
    SuccessesAllTrue(n);
    ModUnique(n, n, 1, 0);
  }
}
