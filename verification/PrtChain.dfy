/** The changes of displayed health a sync emits, and what an interrupted sync does to
    the chain of them. */
module PrtChain {
  import opened PrtHealthFold
  import opened Wrappers

  datatype Change = Change(providerId: string, from: Health, to: Health)

  /** What was last shown of a provider; Healthy until anything was. */
  function LastShown(changes: seq<Change>, providerId: string): Health {
    if changes == [] then Healthy
    else if changes[|changes| - 1].providerId == providerId then changes[|changes| - 1].to
    else LastShown(changes[..|changes| - 1], providerId)
  }

  /** The changes of each provider lead without a break from Healthy to what is shown. */
  predicate Continues(changes: seq<Change>, i: nat)
    requires i < |changes|
  {
    changes[i].from == LastShown(changes[..i], changes[i].providerId) && changes[i].from != changes[i].to
  }

  ghost predicate Unbroken(changes: seq<Change>) {
    forall i :: 0 <= i < |changes| ==> Continues(changes, i)
  }

  lemma OneMoreChange(changes: seq<Change>, c: Change)
    ensures LastShown(changes + [c], c.providerId) == c.to
    ensures forall p :: p != c.providerId ==> LastShown(changes + [c], p) == LastShown(changes, p)
    ensures Unbroken(changes + [c]) <==> Unbroken(changes) && c.from == LastShown(changes, c.providerId) && c.from != c.to
  {
    var more := changes + [c];
    assert more[..|changes|] == changes;
    forall i | 0 <= i < |changes| ensures Continues(more, i) <==> Continues(changes, i) {
      assert more[..i] == changes[..i];
    }
    assert Continues(more, |changes|) <==> c.from == LastShown(changes, c.providerId) && c.from != c.to;
  }

  // -- folding on from a carry ------------------------------------------------------

  function FoldOn(start: Carry, entries: seq<Evidence>, t: Thresholds, legal: Legality, p: string): Carry {
    if entries == [] then start
    else Step(FoldOn(start, entries[..|entries| - 1], t, legal, p), entries[|entries| - 1], t, legal, p)
  }

  lemma {:induction false} FoldSplits(entries: seq<Evidence>, n: nat, t: Thresholds, legal: Legality, p: string)
    requires n <= |entries|
    ensures FoldOn(Fold(entries[..n], t, legal, p), entries[n..], t, legal, p) == Fold(entries, t, legal, p)
    decreases |entries| - n
  {
    var m := |entries| - 1;
    if n == |entries| {
      assert entries[..n] == entries;
    } else {
      FoldSplits(entries[..m], n, t, legal, p);
      assert entries[..m][..n] == entries[..n] && entries[..m][n..] == entries[n..][..m - n];
    }
  }

  lemma {:induction false} NeverUnavailableOn(start: Carry, entries: seq<Evidence>, t: Thresholds, legal: Legality, p: string)
    requires start.state != Unavailable
    ensures FoldOn(start, entries, t, legal, p).state != Unavailable
  {
    if entries != [] {
      NeverUnavailableOn(start, entries[..|entries| - 1], t, legal, p);
    }
  }

  /** One step's change of what is displayed, if any. */
  function ChangeOf(before: Carry, after: Carry, p: string): seq<Change> {
    if Effective(before) != Effective(after) then [Change(p, Effective(before), Effective(after))] else []
  }

  /** The changes these entries make, in order. */
  function Changes(start: Carry, entries: seq<Evidence>, t: Thresholds, legal: Legality, p: string): seq<Change> {
    if entries == [] then []
    else
      var n := |entries| - 1;
      Changes(start, entries[..n], t, legal, p)
      + ChangeOf(FoldOn(start, entries[..n], t, legal, p), FoldOn(start, entries, t, legal, p), p)
  }

  lemma {:induction false} ChangesGrow(start: Carry, entries: seq<Evidence>, n: nat, t: Thresholds, legal: Legality, p: string)
    requires n <= |entries|
    ensures Changes(start, entries[..n], t, legal, p) <= Changes(start, entries, t, legal, p)
    decreases |entries| - n
  {
    var m := |entries| - 1;
    if n == |entries| {
      assert entries[..n] == entries;
    } else {
      ChangesGrow(start, entries[..m], n, t, legal, p);
      assert entries[..m][..n] == entries[..n];
    }
  }

  /** Part of the way: the carry after i entries, and how many of all the changes they made. */
  ghost predicate Underway(all: seq<Change>, start: Carry, entries: seq<Evidence>, i: nat, carry: Carry, done: nat,
                           t: Thresholds, legal: Legality, p: string) {
    && i <= |entries| && done <= |all|
    && all == Changes(start, entries, t, legal, p)
    && carry == FoldOn(start, entries[..i], t, legal, p) && all[..done] == Changes(start, entries[..i], t, legal, p)
    && carry.state != Unavailable
  }

  lemma Begins(start: Carry, entries: seq<Evidence>, t: Thresholds, legal: Legality, p: string)
    requires start.state != Unavailable
    ensures Underway(Changes(start, entries, t, legal, p), start, entries, 0, start, 0, t, legal, p)
  {
  }

  lemma Proceeds(all: seq<Change>, start: Carry, entries: seq<Evidence>, i: nat, carry: Carry, done: nat,
                 t: Thresholds, legal: Legality, p: string)
    requires Underway(all, start, entries, i, carry, done, t, legal, p) && i < |entries| && start.state != Unavailable
    ensures var next := Step(carry, entries[i], t, legal, p);
            var change := ChangeOf(carry, next, p);
            && Underway(all, start, entries, i + 1, next, done + |change|, t, legal, p)
            && all[..done + |change|] == all[..done] + change
            && (change != [] ==> done < |all|)
  {
    NeverUnavailableOn(start, entries[..i + 1], t, legal, p);
    assert entries[..i + 1][..i] == entries[..i];
    ChangesGrow(start, entries, i + 1, t, legal, p);
    var more := Changes(start, entries[..i + 1], t, legal, p);
    assert all[..|more|] == more;
  }

  lemma Completes(all: seq<Change>, start: Carry, entries: seq<Evidence>, carry: Carry, done: nat,
                  t: Thresholds, legal: Legality, p: string)
    requires Underway(all, start, entries, |entries|, carry, done, t, legal, p)
    ensures carry == FoldOn(start, entries, t, legal, p) && done == |all|
  {
    assert entries[..|entries|] == entries;
  }

  /** Changes of one provider, each from where the one before it led. */
  predicate Linked(changes: seq<Change>, from: Health, p: string) {
    changes == []
    || var n := |changes| - 1;
       && Linked(changes[..n], from, p)
       && changes[n] == Change(p, EndOf(changes[..n], from), changes[n].to) && changes[n].from != changes[n].to
  }

  function EndOf(changes: seq<Change>, from: Health): Health {
    if changes == [] then from else changes[|changes| - 1].to
  }

  lemma {:induction false} ChangesLinked(start: Carry, entries: seq<Evidence>, t: Thresholds, legal: Legality, p: string)
    ensures var changes := Changes(start, entries, t, legal, p);
            && Linked(changes, Effective(start), p)
            && EndOf(changes, Effective(start)) == Effective(FoldOn(start, entries, t, legal, p))
  {
    if entries != [] {
      var n := |entries| - 1;
      ChangesLinked(start, entries[..n], t, legal, p);
      var before := Changes(start, entries[..n], t, legal, p);
      var last := ChangeOf(FoldOn(start, entries[..n], t, legal, p), FoldOn(start, entries, t, legal, p), p);
      if last != [] {
        assert (before + last)[..|before|] == before;
      } else {
        assert before + last == before;
      }
    }
  }

  lemma {:induction false} LinkedPrefix(changes: seq<Change>, n: nat, from: Health, p: string)
    requires Linked(changes, from, p) && n <= |changes|
    ensures Linked(changes[..n], from, p)
    ensures n < |changes| ==> changes[n].providerId == p && changes[n].from == EndOf(changes[..n], from) && changes[n].from != changes[n].to
    decreases |changes| - n
  {
    var m := |changes| - 1;
    if n == |changes| {
      assert changes[..n] == changes;
    } else if n < m {
      LinkedPrefix(changes[..m], n, from, p);
      assert changes[..m][..n] == changes[..n];
    }
  }

  /** Linked changes emitted after an unbroken chain continue it exactly when they start
      where it stands (or there are none). */
  lemma {:induction false} Emits(emitted: seq<Change>, changes: seq<Change>, from: Health, p: string)
    requires Linked(changes, from, p)
    ensures LastShown(emitted + changes, p) == EndOf(changes, LastShown(emitted, p))
    ensures forall other :: other != p ==> LastShown(emitted + changes, other) == LastShown(emitted, other)
    ensures Unbroken(emitted + changes) <==> Unbroken(emitted) && (changes == [] || from == LastShown(emitted, p))
  {
    if changes == [] {
      assert emitted + changes == emitted;
    } else {
      var n := |changes| - 1;
      Emits(emitted, changes[..n], from, p);
      assert emitted + changes == (emitted + changes[..n]) + [changes[n]];
      OneMoreChange(emitted + changes[..n], changes[n]);
    }
  }

  // -- interrupted syncs ------------------------------------------------------------

  /** The chain is unbroken and stands, for this provider, where the cache does. */
  ghost predicate InStep(emitted: seq<Change>, shown: Health, p: string) {
    Unbroken(emitted) && LastShown(emitted, p) == shown
  }

  /** A sync that got only some of its changes out keeps the chain in step with the
      (unchanged) cache if and only if the change that failed starts where the cache
      stands: always when it was the first, otherwise only when the changes delivered
      before it led back there. */
  lemma InterruptedInStep(emitted: seq<Change>, changes: seq<Change>, failed: nat, shown: Health, p: string)
    requires InStep(emitted, shown, p) && Linked(changes, shown, p) && failed < |changes|
    ensures InStep(emitted + changes[..failed], shown, p) <==> changes[failed].from == shown
    ensures failed == 0 ==> changes[failed].from == shown
    ensures Unbroken(emitted + changes[..failed])
    ensures forall other :: other != p ==> LastShown(emitted + changes[..failed], other) == LastShown(emitted, other)
  {
    LinkedPrefix(changes, failed, shown, p);
    Emits(emitted, changes[..failed], shown, p);
  }

  /** Once out of step, the next sync that emits anything breaks the chain, for ever: it
      emits the first change again. */
  lemma OutOfStepBreaks(emitted: seq<Change>, changes: seq<Change>, shown: Health, p: string, later: seq<Change>)
    requires LastShown(emitted, p) != shown && Linked(changes, shown, p) && changes != []
    ensures !Unbroken(emitted + changes + later)
  {
    Emits(emitted, changes, shown, p);
    BrokenForEver(emitted + changes, later);
  }

  lemma BrokenForEver(changes: seq<Change>, later: seq<Change>)
    requires !Unbroken(changes)
    ensures !Unbroken(changes + later)
  {
    var i :| 0 <= i < |changes| && !Continues(changes, i);
    assert (changes + later)[..i] == changes[..i];
    assert !Continues(changes + later, i);
  }

  lemma ThreeChanges(p: string, legal: Legality)
    requires Permissive(legal)
    ensures Changes(INITIAL, [Live(p, ExecFailed, ""), Live(p, ExecCompleted, ""), Live(p, ExecFailed, "")], DEFAULT_THRESHOLDS, legal, p)
            == [Change(p, Healthy, Degraded), Change(p, Degraded, Healthy), Change(p, Healthy, Degraded)]
  {
    var t := DEFAULT_THRESHOLDS;
    var one, two, three := [Live(p, ExecFailed, "")], [Live(p, ExecFailed, ""), Live(p, ExecCompleted, "")],
                           [Live(p, ExecFailed, ""), Live(p, ExecCompleted, ""), Live(p, ExecFailed, "")];
    assert one[..0] == [] && two[..1] == one && three[..2] == two;
    assert (Healthy, Degraded) in HEALTH_TRANSITIONS && (Degraded, Healthy) in HEALTH_TRANSITIONS;
    assert Changes(INITIAL, one, t, legal, p) == [Change(p, Healthy, Degraded)];
    assert Changes(INITIAL, two, t, legal, p) == [Change(p, Healthy, Degraded), Change(p, Degraded, Healthy)];
  }

  /** Failing later than at the first change need not put the chain out of step: after a
      failure, a completion and another failure, the third change starts where the first did. */
  lemma LateFailureMayBeInStep(p: string, legal: Legality)
    requires Permissive(legal)
    ensures var entries := [Live(p, ExecFailed, ""), Live(p, ExecCompleted, ""), Live(p, ExecFailed, "")];
            var changes := Changes(INITIAL, entries, DEFAULT_THRESHOLDS, legal, p);
            |changes| == 3 && InStep(changes[..2], Healthy, p) && !InStep(changes[..1], Healthy, p)
  {
    var entries := [Live(p, ExecFailed, ""), Live(p, ExecCompleted, ""), Live(p, ExecFailed, "")];
    var changes := Changes(INITIAL, entries, DEFAULT_THRESHOLDS, legal, p);
    ThreeChanges(p, legal);
    ChangesLinked(INITIAL, entries, DEFAULT_THRESHOLDS, legal, p);
    assert [] + changes[..2] == changes[..2] && [] + changes[..1] == changes[..1];
    InterruptedInStep([], changes, 2, Healthy, p);
    InterruptedInStep([], changes, 1, Healthy, p);
  }
}
