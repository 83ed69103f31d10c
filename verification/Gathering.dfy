/** Awaiting every partition call, with a cut-off for stragglers.

    The environment only decides which calls complete, when, and in what
    order. When the loop stops waiting is decided by the loop. */
module Gathering {
  import opened Outcomes

  /** A call completing. `first` says that the loop sees it before a timer due
      at the same instant. */
  datatype Completion<+R> = Completion(call: nat, result: R, at: nat, first: bool)

  /** What may happen to `total` calls: each completes at most once, in the order
      of time. A call may never complete, but only if some other succeeds and a
      budget is set; otherwise the loop awaits every call, which its own RPC
      timeout ends. */
  ghost predicate IsHistory<R>(total: nat, straggler: Option<nat>, history: seq<Completion<R>>, succeeded: R -> bool) {
    && (forall k :: 0 <= k < |history| ==> history[k].call < total)
    && DistinctCalls(history)
    && (forall j, k :: 0 <= j < k < |history| ==> history[j].at <= history[k].at)
    && (straggler.None? || FirstSuccess(history, succeeded) == |history| ==>
          forall i :: 0 <= i < total ==> Completes(history, i))
  }

  ghost predicate DistinctCalls<R>(history: seq<Completion<R>>) {
    forall j, k :: 0 <= j < k < |history| ==> history[j].call != history[k].call
  }

  /** The first completion that succeeded, or the end of the history. */
  function FirstSuccess<R>(history: seq<Completion<R>>, succeeded: R -> bool): (f: nat)
    ensures f <= |history| && (f < |history| ==> succeeded(history[f].result))
    ensures forall k :: 0 <= k < f ==> !succeeded(history[k].result)
  {
    if history == [] then 0
    else
      var n := |history| - 1;
      var f := FirstSuccess(history[..n], succeeded);
      if f < n || succeeded(history[n].result) then f else n + 1
  }

  ghost predicate Completes<R>(history: seq<Completion<R>>, i: nat) {
    exists k :: 0 <= k < |history| && history[k].call == i
  }

  // ---- what is gathered ----

  /** What call i returned, among the completions read. */
  function Delivered<R>(read: seq<Completion<R>>, i: nat): Option<R> {
    if read == [] then None
    else if read[|read| - 1].call == i then Some(read[|read| - 1].result)
    else Delivered(read[..|read| - 1], i)
  }

  function GatheredAt<R>(read: seq<Completion<R>>, straggled: nat -> R, i: nat): R {
    if Delivered(read, i).Some? then Delivered(read, i).value else straggled(i)
  }

  /** Reading stops after the completion f, after all that are earlier than the
      cut-off, and before any that is later. */
  ghost predicate CutOff<R>(history: seq<Completion<R>>, f: nat, cutoff: nat, n: nat) {
    && f < n
    && (forall k :: 0 <= k < |history| && history[k].at < cutoff ==> k < n)
    && (forall k :: f < k < |history| && history[k].at > cutoff ==> n <= k)
  }

  /** Where reading stops: at the end without a budget or a success, otherwise
      at the budget after the first success. */
  ghost predicate StopsAt<R>(straggler: Option<nat>, history: seq<Completion<R>>, succeeded: R -> bool, n: nat) {
    var f := FirstSuccess(history, succeeded);
    && n <= |history|
    && if straggler.None? || f == |history| then n == |history|
       else CutOff(history, f, history[f].at + straggler.value, n)
  }

  /** The results of a gathering: one per call, in call order. */
  ghost predicate Gathers<R>(total: nat, straggler: Option<nat>, history: seq<Completion<R>>, succeeded: R -> bool,
                             straggled: nat -> R, out: seq<R>)
  {
    |out| == total && exists n: nat :: StopsAt(straggler, history, succeeded, n) && Reads(history[..n], straggled, out)
  }

  ghost predicate Reads<R>(read: seq<Completion<R>>, straggled: nat -> R, out: seq<R>) {
    forall i :: 0 <= i < |out| ==> out[i] == GatheredAt(read, straggled, i)
  }

  method Gather<R>(total: nat, straggler: Option<nat>, history: seq<Completion<R>>, succeeded: R -> bool,
                   straggled: nat -> R)
    returns (out: seq<R>)
    requires IsHistory(total, straggler, history, succeeded)
    ensures Gathers(total, straggler, history, succeeded, straggled, out)
  {
    if straggler.None? {
      out := JoinAll(total, history, succeeded, straggled);
      assert history[..|history|] == history;
      return;
    }
    ghost var f := FirstSuccess(history, succeeded);
    var results: seq<Option<R>> := seq(total, _ => None);
    var deadline: Option<nat> := None;
    var k := 0;
    while k < |history|
      invariant 0 <= k <= |history| && |results| == total
      invariant forall i :: 0 <= i < total ==> results[i] == Delivered(history[..k], i)
      invariant deadline.None? ==> k <= f
      invariant deadline.Some? ==> f < k && deadline.value == history[f].at + straggler.value
      invariant deadline.Some? ==> forall j :: 0 <= j < k ==> history[j].at <= deadline.value
      decreases |history| - k
    {
      var next := history[k];
      if deadline.Some? && (next.at > deadline.value || (next.at == deadline.value && !next.first)) {
        break;
      }
      assert history[..k + 1][..k] == history[..k];
      if deadline.None? && succeeded(next.result) {
        deadline := Some(next.at + straggler.value);
      }
      results := results[next.call := Some(next.result)];
      k := k + 1;
    }
    // Without a further completion the loop ends by its timer, or because
    // nothing is pending.
    out := seq(total, i requires 0 <= i < total => if results[i].Some? then results[i].value else straggled(i));
    assert StopsAt(straggler, history, succeeded, k) && Reads(history[..k], straggled, out);
  }

  lemma {:induction false} DeliveredAt<R>(history: seq<Completion<R>>, n: nat, k: nat)
    requires k < n <= |history| && DistinctCalls(history)
    ensures Delivered(history[..n], history[k].call) == Some(history[k].result)
  {
    assert history[..n][..n - 1] == history[..n - 1];
    if k < n - 1 { DeliveredAt(history, n - 1, k); }
  }

  lemma {:induction false} DeliveredFrom<R>(read: seq<Completion<R>>, i: nat)
    requires Delivered(read, i).Some?
    ensures exists k :: 0 <= k < |read| && read[k].call == i && Delivered(read, i) == Some(read[k].result)
  {
    var n := |read| - 1;
    if read[n].call != i { DeliveredFrom(read[..n], i); }
  }

  /** Without a budget every call is awaited, in call order. */
  method JoinAll<R>(total: nat, history: seq<Completion<R>>, ghost succeeded: R -> bool, ghost straggled: nat -> R)
    returns (out: seq<R>)
    requires IsHistory(total, None, history, succeeded)
    ensures |out| == total && Reads(history, straggled, out)
  {
    out := [];
    for i := 0 to total
      invariant |out| == i && Reads(history, straggled, out)
    {
      AllDelivered(history, i);
      out := out + [Delivered(history, i).value];
    }
  }

  lemma {:induction false} AllDelivered<R>(history: seq<Completion<R>>, i: nat)
    requires DistinctCalls(history) && Completes(history, i)
    ensures Delivered(history, i).Some?
  {
    var k :| 0 <= k < |history| && history[k].call == i;
    DeliveredAt(history, |history|, k);
    assert history[..|history|] == history;
  }

  // ---- what the cut-off guarantees ----

  /** A result read up to the first success, or earlier than the budget after
      it, is kept. */
  lemma {:induction false} InTimeIsKept<R>(total: nat, straggler: Option<nat>, history: seq<Completion<R>>,
                                           succeeded: R -> bool, straggled: nat -> R, out: seq<R>, k: nat)
    requires IsHistory(total, straggler, history, succeeded) && k < |history|
    requires Gathers(total, straggler, history, succeeded, straggled, out)
    requires var f := FirstSuccess(history, succeeded);
             straggler.None? || k <= f || history[k].at < history[f].at + straggler.value
    ensures out[history[k].call] == history[k].result
  {
    var n: nat :| StopsAt(straggler, history, succeeded, n) && Reads(history[..n], straggled, out);
    DeliveredAt(history, n, k);
  }

  /** A call that completes later than the budget after the first success, or
      never, is replaced. */
  lemma {:induction false} LateIsReplaced<R>(total: nat, budget: nat, history: seq<Completion<R>>, succeeded: R -> bool,
                                             straggled: nat -> R, out: seq<R>, i: nat)
    requires IsHistory(total, Some(budget), history, succeeded) && i < total
    requires Gathers(total, Some(budget), history, succeeded, straggled, out)
    requires var f := FirstSuccess(history, succeeded);
             && f < |history|
             && forall k :: 0 <= k < |history| && history[k].call == i ==>
                  k > f && history[k].at > history[f].at + budget
    ensures out[i] == straggled(i)
  {
    var n: nat :| StopsAt(Some(budget), history, succeeded, n) && Reads(history[..n], straggled, out);
    if Delivered(history[..n], i).Some? { DeliveredFrom(history[..n], i); }
  }

  /** Every result is a call's own, unless a budget is set and some result is a
      success: cutting stragglers off never empties a read. */
  lemma {:induction false} StragglerImpliesSuccess<R>(total: nat, straggler: Option<nat>, history: seq<Completion<R>>,
                                                      succeeded: R -> bool, straggled: nat -> R, out: seq<R>, i: nat)
    requires IsHistory(total, straggler, history, succeeded) && i < total
    requires Gathers(total, straggler, history, succeeded, straggled, out)
    ensures || (exists k :: 0 <= k < |history| && history[k].call == i && out[i] == history[k].result)
            || (out[i] == straggled(i) && straggler.Some? && exists j :: 0 <= j < total && succeeded(out[j]))
  {
    var n: nat :| StopsAt(straggler, history, succeeded, n) && Reads(history[..n], straggled, out);
    var f := FirstSuccess(history, succeeded);
    if Delivered(history[..n], i).Some? {
      DeliveredFrom(history[..n], i);
    } else if straggler.None? || f == |history| {
      assert history[..n] == history;
      AllDelivered(history, i);
    } else {
      DeliveredAt(history, n, f);
      assert succeeded(out[history[f].call]);
    }
  }
}
