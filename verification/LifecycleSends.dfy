/** How often a bundle's transaction is sent. The send, the INSERT of the transaction and the INSERT of
    its link are separate statements, so a stop or a failure between them breaks what holds otherwise:
    a bundle is sent once, and what is sent is linked. */
module LifecycleSends {
  import opened Wrappers
  import opened Tables
  import opened Lifecycle
  import opened LifecycleInvariant
  import opened LifecycleSafety

  /** The executor has bundle `b` at the head of its list. */
  predicate InHand(s: State, b: BundleId) { s.exec.Executing? && s.exec.rest != [] && s.exec.rest[0].id == b }

  /** Bundle `b` has been sent and its link is still to be written. */
  predicate Sending(s: State, b: BundleId) { InHand(s, b) && (s.exec.stage.CreateTx? || s.exec.stage.LinkTx?) }

  predicate SentBy(s: State, st: Step, b: BundleId) { st.ESubmitSends? && InHand(s, b) }

  /** How often `b` is sent in the first `n` steps. */
  ghost function Sends(states: seq<State>, steps: seq<Step>, n: nat, b: BundleId): nat
    requires n <= |steps| < |states|
  {
    if n == 0 then 0 else Sends(states, steps, n - 1, b) + if SentBy(states[n - 1], steps[n - 1], b) then 1 else 0
  }

  // ---- the three steps between a send and its link ----

  /** A stop of the executor, or a failed INSERT of the transaction or of its link. */
  predicate Breaks(s: State, st: Step, b: BundleId) {
    Sending(s, b) && (st.EAbort? || st.ECreateFails? || st.ELinkFails?)
  }

  /** Sent, and linked or on the way to it. */
  predicate OnTheWay(s: State, b: BundleId) { IsLinked(s.db, b) || Sending(s, b) }

  lemma LinkedStays(capacity: nat, s: State, st: Step, b: BundleId)
    requires Inv(s) && Enabled(capacity, s, st) && IsLinked(s.db, b)
    ensures IsLinked(Apply(capacity, s, st).db, b)
  {
    StepIsForward(capacity, s, st);
    var l :| l in s.db.links && l.bundle == b;
    assert l in Apply(capacity, s, st).db.links;
  }

  lemma SendingIsUnlinked(s: State, b: BundleId)
    requires Inv(s) && Sending(s, b)
    ensures !IsLinked(s.db, b)
  {}

  lemma OnlyLinksLink(capacity: nat, s: State, st: Step, b: BundleId)
    requires Enabled(capacity, s, st)
    ensures Apply(capacity, s, st).db.links
         == s.db.links + if st.ELinkTx? then {Link(s.exec.rest[0].id, s.exec.stage.h)} else {}
  {}

  /** A bundle sent leaves the way to its link by exactly those three steps. */
  lemma BreaksExactlyWhen(capacity: nat, s: State, st: Step, b: BundleId)
    requires Inv(s) && Enabled(capacity, s, st) && Sending(s, b)
    ensures !OnTheWay(Apply(capacity, s, st), b) <==> Breaks(s, st, b)
  {
    SendingIsUnlinked(s, b);
    OnlyLinksLink(capacity, s, st, b);
    if st.ELinkTx? { assert Link(b, s.exec.stage.h) in Apply(capacity, s, st).db.links; }
  }

  /** What each of the three leads to: after a stop the row is unlinked PROCESSING and no longer in
      hand, as before any send; after a failed INSERT the bundle is next marked FAILED. */
  lemma WhatABreakLeaves(capacity: nat, s: State, st: Step, b: BundleId)
    requires Inv(s) && Enabled(capacity, s, st) && Breaks(s, st, b)
    ensures var t := Apply(capacity, s, st);
      && !IsLinked(t.db, b) && b in t.db.bundles && t.db.bundles[b].status.Processing?
      && (if st.EAbort? then !InHand(t, b) else InHand(t, b) && t.exec.stage.MarkFailedStage?)
  {
    assert Matches(s.db, s.exec.rest[0]);
  }

  /** Sent, and either on the way to its link or about to be marked FAILED, or settled. */
  predicate BeyondSending(s: State, b: BundleId) {
    || OnTheWay(s, b)
    || (InHand(s, b) && s.exec.stage.MarkFailedStage?)
    || (b in s.db.bundles && Terminal(s.db.bundles[b].status))
  }

  /** Only an unlinked PROCESSING row is sent. */
  lemma SentIsUnlinked(capacity: nat, s: State, st: Step, b: BundleId)
    requires Inv(s) && Enabled(capacity, s, st) && SentBy(s, st, b)
    ensures !OnTheWay(s, b) && b in s.db.bundles && s.db.bundles[b].status.Processing?
    ensures Sending(Apply(capacity, s, st), b) && !BeyondSending(s, b)
  {
    assert Matches(s.db, s.exec.rest[0]);
  }

  /** In every run, a bundle that none of the three steps hits between its send and its link is sent at
      most once, and once sent it is linked or its link is the next thing to be written. */
  lemma {:induction false} SentOnce(capacity: nat, states: seq<State>, steps: seq<Step>, n: nat, b: BundleId)
    requires IsRun(capacity, states, steps) && Inv(states[0]) && n <= |steps|
    requires forall i :: 0 <= i < n ==> !Breaks(states[i], steps[i], b)
    ensures Sends(states, steps, n, b) <= 1
    ensures Sends(states, steps, n, b) == 1 ==> OnTheWay(states[n], b)
  {
    if n > 0 {
      SentOnce(capacity, states, steps, n - 1, b);
      InvThroughout(capacity, states, steps, n - 1);
      var s, st := states[n - 1], steps[n - 1];
      if SentBy(s, st, b) {
        SentIsUnlinked(capacity, s, st, b);
      } else if IsLinked(s.db, b) {
        LinkedStays(capacity, s, st, b);
      } else if Sending(s, b) {
        BreaksExactlyWhen(capacity, s, st, b);
      }
    }
  }

  // ---- failures alone do not make it two ----

  /** The executor stops with `b` in hand, past its send. */
  predicate StopsPastSend(s: State, st: Step, b: BundleId) {
    st.EAbort? && (Sending(s, b) || (InHand(s, b) && s.exec.stage.MarkFailedStage?))
  }

  lemma BeyondStays(capacity: nat, s: State, st: Step, b: BundleId)
    requires Inv(s) && Enabled(capacity, s, st) && BeyondSending(s, b) && !StopsPastSend(s, st, b)
    ensures BeyondSending(Apply(capacity, s, st), b)
  {
    StepIsForward(capacity, s, st);
    if IsLinked(s.db, b) {
      LinkedStays(capacity, s, st, b);
    } else if Sending(s, b) {
      BreaksExactlyWhen(capacity, s, st, b);
    } else if InHand(s, b) && st.EMarkFailed? {
      assert Matches(s.db, s.exec.rest[0]);
    }
  }

  /** The bundle is sent at most once so far, and once sent it is beyond sending. */
  ghost predicate AtMostOnce(states: seq<State>, steps: seq<Step>, n: nat, b: BundleId)
    requires n <= |steps| < |states|
  {
    Sends(states, steps, n, b) == 0 || (Sends(states, steps, n, b) == 1 && BeyondSending(states[n], b))
  }

  lemma OneMoreStep(capacity: nat, states: seq<State>, steps: seq<Step>, n: nat, b: BundleId)
    requires n < |steps| < |states| && Inv(states[n]) && Next(capacity, states[n], steps[n]) == Some(states[n + 1])
    requires AtMostOnce(states, steps, n, b)
    requires Sends(states, steps, n, b) > 0 ==> !StopsPastSend(states[n], steps[n], b)
    ensures AtMostOnce(states, steps, n + 1, b)
  {
    var s, st := states[n], steps[n];
    if SentBy(s, st, b) {
      SentIsUnlinked(capacity, s, st, b);
    } else if Sends(states, steps, n, b) == 1 {
      BeyondStays(capacity, s, st, b);
    }
  }

  /** A second send takes a stop past the first: failed INSERTs end in FAILED and are not sent again. */
  lemma {:induction false} SentAgainOnlyAfterAStop(
      capacity: nat, states: seq<State>, steps: seq<Step>, n: nat, b: BundleId)
    requires IsRun(capacity, states, steps) && Inv(states[0]) && n <= |steps|
    requires forall i :: 0 <= i < n && Sends(states, steps, i, b) > 0 ==> !StopsPastSend(states[i], steps[i], b)
    ensures AtMostOnce(states, steps, n, b)
  {
    if n > 0 {
      var m: nat := n - 1;
      SentAgainOnlyAfterAStop(capacity, states, steps, m, b);
      InvThroughout(capacity, states, steps, m);
      OneMoreStep(capacity, states, steps, m, b);
    }
  }
}
