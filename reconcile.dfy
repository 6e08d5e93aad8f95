/** Failure reconciliation shared by both versions: the payloads whose push failed are
    collected in order, and only when there are some are they written, newline-joined, to
    the send-failure blob. */
module Reconcile {
  import opened Wrappers
  import opened Sequences

  /** The elements of `xs` whose flag in `keep` is set, in their original order. */
  function Select<T>(xs: seq<T>, keep: seq<bool>): (r: seq<T>)
    requires |keep| == |xs|
    ensures |r| <= |xs|
    decreases |xs|
  {
    if |xs| == 0 then []
    else Select(xs[..|xs| - 1], keep[..|xs| - 1]) + (if keep[|xs| - 1] then [xs[|xs| - 1]] else [])
  }

  /** The positions whose flag is set, in increasing order. */
  function Positions(keep: seq<bool>): (ix: seq<nat>)
    ensures forall j :: 0 <= j < |ix| ==> ix[j] < |keep|
    decreases |keep|
  {
    if |keep| == 0 then []
    else Positions(keep[..|keep| - 1]) + (if keep[|keep| - 1] then [|keep| - 1] else [])
  }

  /** The j-th selected element is the element at the j-th flagged position. */
  lemma {:induction false} SelectAtPositions<T>(xs: seq<T>, keep: seq<bool>)
    requires |keep| == |xs|
    ensures var r, ix := Select(xs, keep), Positions(keep);
      |r| == |ix| && forall j :: 0 <= j < |ix| ==> r[j] == xs[ix[j]]
    decreases |xs|
  {
    if |xs| > 0 {
      var n := |xs| - 1;
      SelectAtPositions(xs[..n], keep[..n]);
    }
  }

  predicate Increasing(ix: seq<nat>) {
    forall j, k :: 0 <= j < k < |ix| ==> ix[j] < ix[k]
  }

  /** Flagged positions are listed in increasing order, so the selection keeps the order of `xs`. */
  lemma {:induction false} PositionsIncrease(keep: seq<bool>)
    ensures Increasing(Positions(keep))
    decreases |keep|
  {
    if |keep| > 0 {
      var n := |keep| - 1;
      PositionsIncrease(keep[..n]);
      var before := Positions(keep[..n]);
      var ix := Positions(keep);
      forall j, k | 0 <= j < k < |ix| ensures ix[j] < ix[k] {
        if k < |before| {
          assert ix[j] == before[j] && ix[k] == before[k];
          assert before[j] < before[k];
        } else {
          assert ix[k] == n;
          assert ix[j] == before[j] < n;
        }
      }
    }
  }

  /** A position is selected if and only if it is flagged. */
  lemma {:induction false} PositionsAreFlagged(keep: seq<bool>)
    ensures forall i :: 0 <= i < |keep| ==> (keep[i] <==> i in Positions(keep))
    decreases |keep|
  {
    if |keep| > 0 {
      var n := |keep| - 1;
      PositionsAreFlagged(keep[..n]);
      forall i | 0 <= i < n
        ensures keep[i] <==> i in Positions(keep)
      {
        assert keep[..n][i] == keep[i];
      }
    }
  }

  /** Nothing is selected exactly when no flag is set. */
  lemma {:induction false} SelectEmptyIff<T>(xs: seq<T>, keep: seq<bool>)
    requires |keep| == |xs|
    ensures Select(xs, keep) == [] <==> forall i :: 0 <= i < |keep| ==> !keep[i]
    decreases |xs|
  {
    if |xs| > 0 {
      var n := |xs| - 1;
      SelectEmptyIff(xs[..n], keep[..n]);
      if Select(xs, keep) == [] {
        forall i | 0 <= i < |keep| ensures !keep[i] {
          if i < n {
            assert keep[..n][i] == keep[i];
          }
        }
      }
    }
  }

  /** What `handlePushErrors` / `handle_push_exceptions` write to the send-failure blob:
      nothing for no failures, otherwise the failed payloads joined by newlines. */
  function SendBlob(failedPayloads: seq<string>): (blob: Option<string>)
    ensures blob.None? <==> failedPayloads == []
    ensures blob.Some? ==> blob.value == Join(failedPayloads, '\n')
  {
    if |failedPayloads| == 0 then None else Some(Join(failedPayloads, '\n'))
  }

  /** Whoever reads the blob back gets exactly the failed payloads, provided no payload
      contains a newline (serialized JSON events do not). Writing nothing for no failures
      is what makes this hold: an empty blob would read back as one empty payload. */
  lemma SendBlobRoundTrip(failedPayloads: seq<string>)
    requires forall i :: 0 <= i < |failedPayloads| ==> '\n' !in failedPayloads[i]
    ensures match SendBlob(failedPayloads)
      case None => failedPayloads == []
      case Some(blob) => Split(blob, '\n') == failedPayloads
  {
    if |failedPayloads| > 0 {
      SplitJoin(failedPayloads, '\n');
    }
  }
}
