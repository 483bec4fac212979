/**
 * The run-to-run reconciliation of the robot. The queue holds, per citizen
 * pseudonym, the two registration flags seen by an earlier run; the current
 * status dictionary holds what the lookups say now. Each queue element is
 * deleted (reference no longer current), left alone (flags equal) or replaced
 * by a new element with the current flags (a flag differs, which also yields
 * a change row); every matched reference is popped from the dictionary. A
 * report is mailed when there were changes, and finally an element is created
 * for every reference that no queue element matched.
 */
module Reconciliation {
  import opened Results
  import opened Pseudonym
  import opened Registration
  import opened Report
  import opened Queue
  import opened Sequences

  /** The queue payload that records the flags of `s`. */
  function Flags(s: Status): Payload {
    Payload(s.digitalPost, s.nemsms)
  }

  /** The change row reported for a citizen whose flags changed. */
  function ChangeOf(s: Status): ChangeRow {
    ChangeRow(s.cpr, s.digitalPost, s.nemsms)
  }

  /** The state of the reconciliation loop after some prefix of the queue snapshot. */
  datatype Walked = Walked(
    kept: seq<QueueElement>,         // snapshot elements left in the queue as they were
    replaced: seq<QueueElement>,     // elements created in place of changed ones
    changes: seq<ChangeRow>,         // the change rows, in the order they were appended
    remaining: map<string, Status>,  // the status dictionary after the pops
    nextId: nat,                     // the id the queue hands out next
    events: seq<Event>)              // the deletions and creations made so far

  /** The queue elements that the loop has settled: kept or created. */
  function Settled(w: Walked): seq<QueueElement> {
    w.kept + w.replaced
  }

  /** One iteration of the loop, for queue element `e`. */
  function Step(w: Walked, e: QueueElement): Walked {
    if e.reference in w.remaining then
      var current := w.remaining[e.reference];
      var rest := w.remaining - {e.reference};
      if e.data != Flags(current) then
        var created := QueueElement(w.nextId, e.reference, Flags(current));
        Walked(w.kept, w.replaced + [created], w.changes + [ChangeOf(current)], rest,
               w.nextId + 1, w.events + [Deleted(e.id), Created(created)])
      else
        w.(kept := w.kept + [e], remaining := rest)
    else
      w.(events := w.events + [Deleted(e.id)])
  }

  /**
   * The loop after the first `n` elements of the queue snapshot `q`, started
   * from the status dictionary `current` and the queue's next free id.
   */
  function Walk(q: seq<QueueElement>, n: nat, current: map<string, Status>, firstId: nat): Walked
    requires n <= |q|
  {
    if n == 0 then Walked([], [], [], current, firstId, [])
    else Step(Walk(q, n - 1, current, firstId), q[n - 1])
  }

  /**
   * What happens to the j-th snapshot element, decided from the ORIGINAL
   * dictionary: it is stale when its reference is not current or an earlier
   * element already had that reference; otherwise unchanged or changed as its
   * stored flags equal the current ones or not.
   */
  datatype Fate = Stale | Unchanged | Changed

  function FateOf(q: seq<QueueElement>, current: map<string, Status>, j: nat): Fate
    requires j < |q|
  {
    var e := q[j];
    if e.reference !in current || e.reference in Refs(q[..j]) then Stale
    else if e.data == Flags(current[e.reference]) then Unchanged
    else Changed
  }

  /**
   * After the loop has seen the first `n` elements, the dictionary holds
   * exactly the current entries whose reference none of them has.
   */
  lemma {:induction false} WalkRemaining(q: seq<QueueElement>, n: nat, current: map<string, Status>, firstId: nat)
    requires n <= |q|
    ensures var w := Walk(q, n, current, firstId);
            && (forall k :: k in w.remaining <==> k in current && k !in Refs(q[..n]))
            && (forall k :: k in w.remaining ==> w.remaining[k] == current[k])
  {
    if n > 0 {
      WalkRemaining(q, n - 1, current, firstId);
      assert q[..n] == q[..n - 1] + [q[n - 1]];
      RefsAppend(q[..n - 1], [q[n - 1]]);
      assert Refs([q[n - 1]]) == [q[n - 1].reference];
    }
  }

  /**
   * The step taken for the n-th snapshot element follows its fate: a stale
   * element is deleted and nothing else happens; an unchanged one stays and
   * its reference is popped; a changed one is deleted, an element with the
   * same reference and the current flags is created, one change row with the
   * current values is appended and the reference is popped.
   */
  lemma StepByFate(q: seq<QueueElement>, current: map<string, Status>, firstId: nat, n: nat)
    requires n < |q|
    ensures var w := Walk(q, n, current, firstId);
            var e := q[n];
            Walk(q, n + 1, current, firstId) ==
              match FateOf(q, current, n)
              case Stale => w.(events := w.events + [Deleted(e.id)])
              case Unchanged => w.(kept := w.kept + [e], remaining := w.remaining - {e.reference})
              case Changed =>
                var created := QueueElement(w.nextId, e.reference, Flags(current[e.reference]));
                Walked(w.kept, w.replaced + [created], w.changes + [ChangeOf(current[e.reference])],
                       w.remaining - {e.reference}, w.nextId + 1, w.events + [Deleted(e.id), Created(created)])
  {
    WalkRemaining(q, n, current, firstId);
  }

  /**
   * Every settled element carries a current reference, which is no longer in
   * the dictionary, and the current flags of that reference.
   */
  lemma {:induction false} WalkSettledElements(q: seq<QueueElement>, n: nat, current: map<string, Status>, firstId: nat)
    requires n <= |q|
    ensures var w := Walk(q, n, current, firstId);
            forall x :: x in Settled(w) ==>
              x.reference in current && x.reference !in w.remaining && x.data == Flags(current[x.reference])
  {
    if n > 0 {
      var e := q[n - 1];
      WalkSettledElements(q, n - 1, current, firstId);
      WalkRemaining(q, n - 1, current, firstId);
      var w0 := Walk(q, n - 1, current, firstId);
      var w := Walk(q, n, current, firstId);
      forall x | x in Settled(w)
        ensures x.reference in current && x.reference !in w.remaining && x.data == Flags(current[x.reference])
      {
        if x !in Settled(w0) {
          assert x.reference == e.reference && e.reference in w0.remaining;
        }
      }
    }
  }

  /** The references of the settled elements after one more step. */
  lemma SettledRefsAfterStep(w0: Walked, e: QueueElement)
    ensures var w := Step(w0, e);
            multiset(Refs(Settled(w))) ==
              if e.reference in w0.remaining then multiset(Refs(Settled(w0))) + multiset{e.reference}
              else multiset(Refs(Settled(w0)))
  {
    var w := Step(w0, e);
    if e.reference in w0.remaining {
      if e.data != Flags(w0.remaining[e.reference]) {
        RefsAppend(Settled(w0), [w.replaced[|w.replaced| - 1]]);
        assert Settled(w) == Settled(w0) + [w.replaced[|w.replaced| - 1]];
      } else {
        assert Settled(w) == w0.kept + [e] + w0.replaced;
        RefsAppend(w0.kept, [e]);
        RefsAppend(w0.kept + [e], w0.replaced);
        RefsAppend(w0.kept, w0.replaced);
      }
    }
  }

  /** Every reference of `current` popped in `w` has exactly one settled element. */
  ghost predicate PoppedOnce(w: Walked, current: map<string, Status>) {
    forall k :: k in current && k !in w.remaining ==> multiset(Refs(Settled(w)))[k] == 1
  }

  /** No settled element of `w` has a reference still in the dictionary. */
  ghost predicate SettledPopped(w: Walked) {
    forall x :: x in Settled(w) ==> x.reference !in w.remaining
  }

  lemma PoppedOnceAfterStep(w0: Walked, e: QueueElement, current: map<string, Status>)
    requires PoppedOnce(w0, current)
    requires SettledPopped(w0)
    ensures PoppedOnce(Step(w0, e), current)
  {
    var w := Step(w0, e);
    SettledRefsAfterStep(w0, e);
    var bag0 := multiset(Refs(Settled(w0)));
    var bag := multiset(Refs(Settled(w)));
    if e.reference in w0.remaining {
      assert e.reference !in Refs(Settled(w0));
      assert bag == bag0 + multiset{e.reference};
      assert w.remaining == w0.remaining - {e.reference};
    } else {
      assert bag == bag0 && w.remaining == w0.remaining;
    }
  }

  /** Every reference popped from the dictionary has exactly one settled element. */
  lemma {:induction false} WalkSettledCounts(q: seq<QueueElement>, n: nat, current: map<string, Status>, firstId: nat)
    requires n <= |q|
    ensures PoppedOnce(Walk(q, n, current, firstId), current)
  {
    if n > 0 {
      var w0 := Walk(q, n - 1, current, firstId);
      WalkSettledCounts(q, n - 1, current, firstId);
      WalkSettledElements(q, n - 1, current, firstId);
      assert SettledPopped(w0);
      PoppedOnceAfterStep(w0, q[n - 1], current);
      assert Walk(q, n, current, firstId) == Step(w0, q[n - 1]);
    }
  }

  /** The queue holds exactly one element per key of `current`, carrying that key's flags. */
  ghost predicate Mirrors(queue: seq<QueueElement>, current: map<string, Status>) {
    && (forall x :: x in queue ==> x.reference in current && x.data == Flags(current[x.reference]))
    && (forall k :: k in current ==> multiset(Refs(queue))[k] == 1)
  }

  /**
   * The settled elements followed by one element per unmatched key, with that
   * key's flags, mirror `current`: the final queue neither keeps a stale
   * reference nor misses a current one, and holds no reference twice, even
   * when the snapshot held one twice.
   */
  lemma {:induction false} SettledAndCreatedMirror(q: seq<QueueElement>, current: map<string, Status>,
                                                   firstId: nat, created: seq<QueueElement>)
    requires var w := Walk(q, |q|, current, firstId);
             && (forall x :: x in created ==> x.reference in w.remaining && x.data == Flags(w.remaining[x.reference]))
             && (forall k :: k in w.remaining ==> multiset(Refs(created))[k] == 1)
    ensures Mirrors(Settled(Walk(q, |q|, current, firstId)) + created, current)
  {
    var w := Walk(q, |q|, current, firstId);
    WalkRemaining(q, |q|, current, firstId);
    WalkSettledElements(q, |q|, current, firstId);
    WalkSettledCounts(q, |q|, current, firstId);
    RefsAppend(Settled(w), created);
    forall k | k in current ensures multiset(Refs(Settled(w) + created))[k] == 1 {
      if k in w.remaining {
        assert k !in Refs(Settled(w));
      } else {
        assert k !in Refs(created);
      }
    }
  }

  /** The positions, below `n`, of the snapshot elements whose fate is `Changed`, in increasing order. */
  function ChangedPositions(q: seq<QueueElement>, current: map<string, Status>, n: nat): seq<nat>
    requires n <= |q|
  {
    if n == 0 then []
    else ChangedPositions(q, current, n - 1) + (if FateOf(q, current, n - 1) == Changed then [n - 1] else [])
  }

  /**
   * `ChangedPositions` lists every position below `n` whose fate is
   * `Changed`, and only those, in strictly increasing order.
   */
  lemma {:induction false} ChangedPositionsExact(q: seq<QueueElement>, current: map<string, Status>, n: nat)
    requires n <= |q|
    ensures var ps := ChangedPositions(q, current, n);
            && (forall i :: 0 <= i < |ps| ==> ps[i] < n && FateOf(q, current, ps[i]) == Changed)
            && (forall i, i' :: 0 <= i < i' < |ps| ==> ps[i] < ps[i'])
            && (forall j :: 0 <= j < n && FateOf(q, current, j) == Changed ==> j in ps)
  {
    if n > 0 {
      ChangedPositionsExact(q, current, n - 1);
      var ps0 := ChangedPositions(q, current, n - 1);
      var ps := ChangedPositions(q, current, n);
      forall j | 0 <= j < n && FateOf(q, current, j) == Changed ensures j in ps {
        if j < n - 1 {
          assert j in ps0;
        } else {
          assert ps == ps0 + [n - 1];
        }
      }
    }
  }

  /**
   * The change list follows the order of the queue snapshot: its i-th row is
   * the current value of the i-th changed element, and there is one row per
   * changed element.
   */
  lemma {:induction false} ChangesFollowQueueOrder(q: seq<QueueElement>, current: map<string, Status>, firstId: nat, n: nat)
    requires n <= |q|
    ensures var changes := Walk(q, n, current, firstId).changes;
            var ps := ChangedPositions(q, current, n);
            && |changes| == |ps|
            && forall i :: 0 <= i < |ps| ==>
                 ps[i] < |q| && FateOf(q, current, ps[i]) == Changed
                 && changes[i] == ChangeOf(current[q[ps[i]].reference])
  {
    ChangedPositionsExact(q, current, n);
    if n > 0 {
      ChangesFollowQueueOrder(q, current, firstId, n - 1);
      StepByFate(q, current, firstId, n - 1);
    }
  }

  /** The report is sent exactly when some snapshot element's flags changed. */
  lemma ReportSentIffSomeElementChanged(q: seq<QueueElement>, current: map<string, Status>, firstId: nat)
    ensures Walk(q, |q|, current, firstId).changes != []
            <==> exists j :: 0 <= j < |q| && FateOf(q, current, j) == Changed
  {
    ChangesFollowQueueOrder(q, current, firstId, |q|);
    ChangedPositionsExact(q, current, |q|);
    var ps := ChangedPositions(q, current, |q|);
    if ps != [] {
      assert FateOf(q, current, ps[0]) == Changed;
    }
  }

  /** A reference that occurs once in `q` does not occur before its position. */
  lemma SingleOccurrence(q: seq<QueueElement>, n: nat)
    requires n < |q| && multiset(Refs(q))[q[n].reference] == 1
    ensures q[n].reference !in Refs(q[..n])
  {
    assert q == q[..n] + [q[n]] + q[n + 1..];
    RefsAppend(q[..n] + [q[n]], q[n + 1..]);
    RefsAppend(q[..n], [q[n]]);
    assert Refs([q[n]]) == [q[n].reference];
  }

  /** In a queue that mirrors `current`, every element is unchanged. */
  lemma MirrorElementUnchanged(q: seq<QueueElement>, current: map<string, Status>, n: nat)
    requires Mirrors(q, current) && n < |q|
    ensures FateOf(q, current, n) == Unchanged
  {
    assert q[n] in q;
    SingleOccurrence(q, n);
  }

  /**
   * When the report cannot be sent, the run stops with the queue holding the
   * settled elements. If the next run sees the same statuses, its loop over
   * the queue finds every element unchanged: the loop deletes, replaces and
   * reports nothing, so the change rows of the failed run are never reported.
   * The loop leaves unmatched exactly the keys the failed run left unmatched,
   * so the next run's final loop creates the elements the failed run skipped.
   */
  lemma ReportLostAfterFailedSend(q: seq<QueueElement>, current: map<string, Status>, firstId: nat, nextId: nat)
    ensures var s := Settled(Walk(q, |q|, current, firstId));
            var w := Walk(s, |s|, current, nextId);
            && w.kept == s && w.changes == [] && w.events == []
            && w.remaining == Walk(q, |q|, current, firstId).remaining
  {
    var s := Settled(Walk(q, |q|, current, firstId));
    WalkSettledElements(q, |q|, current, firstId);
    WalkSettledCounts(q, |q|, current, firstId);
    forall j | 0 <= j < |s| ensures FateOf(s, current, j) == Unchanged {
      assert s[j] in s;
      SingleOccurrence(s, j);
    }
    UnchangedWalkKeepsAll(s, current, nextId, |s|);
    assert s[..|s|] == s;
    RewalkLeavesSameUnmatched(q, current, firstId, nextId);
  }

  /** Walking the settled elements again leaves unmatched exactly the keys the first walk left. */
  lemma RewalkLeavesSameUnmatched(q: seq<QueueElement>, current: map<string, Status>, firstId: nat, nextId: nat)
    ensures var s := Settled(Walk(q, |q|, current, firstId));
            Walk(s, |s|, current, nextId).remaining == Walk(q, |q|, current, firstId).remaining
  {
    var s := Settled(Walk(q, |q|, current, firstId));
    WalkSettledElements(q, |q|, current, firstId);
    WalkSettledCounts(q, |q|, current, firstId);
    WalkRemaining(q, |q|, current, firstId);
    WalkRemaining(s, |s|, current, nextId);
    assert s[..|s|] == s;
    var r0 := Walk(q, |q|, current, firstId).remaining;
    var r := Walk(s, |s|, current, nextId).remaining;
    forall k ensures k in r <==> k in r0 {
      if k in current && k !in r0 {
        assert multiset(Refs(s))[k] == 1;
      }
      if k in Refs(s) {
        var i :| 0 <= i < |s| && Refs(s)[i] == k;
        assert s[i] in s;
      }
    }
  }

  /** While every element is unchanged, the loop keeps each one and does nothing else. */
  lemma {:induction false} UnchangedWalkKeepsAll(q: seq<QueueElement>, current: map<string, Status>, firstId: nat, n: nat)
    requires n <= |q|
    requires forall j :: 0 <= j < n ==> FateOf(q, current, j) == Unchanged
    ensures var w := Walk(q, n, current, firstId);
            w.kept == q[..n] && w.replaced == [] && w.changes == [] && w.nextId == firstId && w.events == []
  {
    if n > 0 {
      UnchangedWalkKeepsAll(q, current, firstId, n - 1);
      assert FateOf(q, current, n - 1) == Unchanged;
      StepByFate(q, current, firstId, n - 1);
      assert q[..n] == q[..n - 1] + [q[n - 1]];
    }
  }

  /**
   * Reconciling a queue that already mirrors the current dictionary (as a run
   * leaves it) changes nothing: every element is kept, nothing is deleted or
   * created, no change row is produced, and every key is matched.
   */
  lemma ReconcilingAMirrorChangesNothing(q: seq<QueueElement>, current: map<string, Status>, firstId: nat)
    requires Mirrors(q, current)
    ensures Walk(q, |q|, current, firstId) == Walked(q, [], [], map[], firstId, [])
  {
    forall j | 0 <= j < |q| ensures FateOf(q, current, j) == Unchanged {
      MirrorElementUnchanged(q, current, j);
    }
    UnchangedWalkKeepsAll(q, current, firstId, |q|);
    WalkRemaining(q, |q|, current, firstId);
    var w := Walk(q, |q|, current, firstId);
    forall k | k in current ensures k in Refs(q[..|q|]) {
      assert q[..|q|] == q;
      assert multiset(Refs(q))[k] == 1;
    }
    assert w.remaining == map[];
    assert q[..|q|] == q;
  }

  /**
   * The queue, the event log, the change list and the dictionary are those
   * of the loop after the first `i` elements of the snapshot `q`.
   */
  ghost predicate ReconciledUpTo(o: Orchestrator, q: seq<QueueElement>, i: nat, current: map<string, Status>,
                                 firstId: nat, events0: seq<Event>,
                                 currentStatus: map<string, Status>, changes: seq<ChangeRow>)
    requires i <= |q|
    reads o
  {
    var w := Walk(q, i, current, firstId);
    && DistinctIds(o.elements) && (forall x :: x in o.elements ==> x.id < o.nextId)
    && w.remaining == currentStatus && w.changes == changes && w.nextId == o.nextId
    && o.elements == w.kept + q[i..] + w.replaced
    && o.events == events0 + w.events
  }

  /** The queue contents before and after one step, as the loop body produces them. */
  lemma StepOnQueue(w: Walked, row: QueueElement, rest: seq<QueueElement>)
    requires DistinctIds(w.kept + ([row] + rest) + w.replaced)
    ensures var w' := Step(w, row);
            var before := w.kept + ([row] + rest) + w.replaced;
            var after := w'.kept + rest + w'.replaced;
            if row.reference !in w.remaining then
              after == RemoveId(before, row.id) && w'.events == w.events + [Deleted(row.id)]
            else if row.data != Flags(w.remaining[row.reference]) then
              var element := QueueElement(w.nextId, row.reference, Flags(w.remaining[row.reference]));
              after == RemoveId(before, row.id) + [element]
              && w'.events == w.events + [Deleted(row.id), Created(element)]
            else
              after == before && w'.events == w.events
  {
    Regroup(w.kept, row, rest, w.replaced);
    if row.reference !in w.remaining || row.data != Flags(w.remaining[row.reference]) {
      RemoveUniqueId(w.kept, row, rest + w.replaced);
      Associative(w.kept, rest, w.replaced);
      if row.reference in w.remaining {
        var element := QueueElement(w.nextId, row.reference, Flags(w.remaining[row.reference]));
        Associative(w.kept + rest, w.replaced, [element]);
      }
    } else {
      Associative(w.kept, [row], rest);
    }
  }

  /** The body of the loop, for the i-th element `q[i]` of the snapshot. */
  method ReconcileElement(o: Orchestrator, q: seq<QueueElement>, i: nat, currentStatus: map<string, Status>,
                          changes: seq<ChangeRow>, ghost current: map<string, Status>, ghost firstId: nat,
                          ghost events0: seq<Event>)
    returns (currentStatus': map<string, Status>, changes': seq<ChangeRow>)
    requires i < |q|
    requires ReconciledUpTo(o, q, i, current, firstId, events0, currentStatus, changes)
    modifies o
    ensures ReconciledUpTo(o, q, i + 1, current, firstId, events0, currentStatus', changes')
  {
    ghost var w := Walk(q, i, current, firstId);
    var row := q[i];
    SplitAt(q, i);
    StepOnQueue(w, row, q[i + 1..]);
    assert o.Valid();
    changes' := changes;
    currentStatus' := currentStatus;
    var currentValue := if row.reference in currentStatus then Some(currentStatus[row.reference]) else None;
    if currentValue.Some? {
      var value := currentValue.value;
      if value.digitalPost != row.data.digitalPost || value.nemsms != row.data.nemsms {
        o.DeleteQueueElement(row.id);
        o.CreateQueueElement(row.reference, Payload(value.digitalPost, value.nemsms));
        changes' := changes + [ChangeRow(value.cpr, value.digitalPost, value.nemsms)];
        Associative(events0, w.events, [Deleted(row.id), Created(o.elements[|o.elements| - 1])]);
      }
      currentStatus' := currentStatus - {row.reference};
    } else {
      o.DeleteQueueElement(row.id);
      Associative(events0, w.events, [Deleted(row.id)]);
    }
  }

  lemma ReconciledAtStart(o: Orchestrator, q: seq<QueueElement>, current: map<string, Status>)
    requires o.Valid() && o.elements == q
    ensures ReconciledUpTo(o, q, 0, current, o.nextId, o.events, current, [])
  {
    assert o.elements == [] + q[0..] + [];
    assert o.events == o.events + [];
  }

  lemma ReconciledAtEnd(o: Orchestrator, q: seq<QueueElement>, current: map<string, Status>, firstId: nat,
                        events0: seq<Event>, currentStatus: map<string, Status>, changes: seq<ChangeRow>)
    requires ReconciledUpTo(o, q, |q|, current, firstId, events0, currentStatus, changes)
    ensures var w := Walk(q, |q|, current, firstId);
            && o.Valid()
            && o.elements == Settled(w) && o.nextId == w.nextId && o.events == events0 + w.events
            && changes == w.changes && currentStatus == w.remaining
  {
    var w := Walk(q, |q|, current, firstId);
    assert w.kept + q[|q|..] + w.replaced == Settled(w);
  }

  /**
   * The loop over the queue snapshot: its effect on the queue, the event log,
   * the change list and the status dictionary is that of `Walk`.
   */
  method ReconcileQueue(o: Orchestrator, queueElements: seq<QueueElement>, currentStatus: map<string, Status>)
    returns (changes: seq<ChangeRow>, unmatched: map<string, Status>)
    requires o.Valid() && o.elements == queueElements
    modifies o
    ensures var w := Walk(queueElements, |queueElements|, currentStatus, old(o.nextId));
            && o.Valid()
            && o.elements == Settled(w) && o.nextId == w.nextId && o.events == old(o.events) + w.events
            && changes == w.changes && unmatched == w.remaining
  {
    ghost var firstId := o.nextId;
    ghost var events0 := o.events;
    changes := [];
    unmatched := currentStatus;
    ReconciledAtStart(o, queueElements, currentStatus);
    for i := 0 to |queueElements|
      invariant ReconciledUpTo(o, queueElements, i, currentStatus, firstId, events0, unmatched, changes)
    {
      unmatched, changes := ReconcileElement(o, queueElements, i, unmatched, changes, currentStatus, firstId, events0);
    }
    ReconciledAtEnd(o, queueElements, currentStatus, firstId, events0, unmatched, changes);
  }

  /** The creations so far cover exactly the keys of `unmatched` no longer in `rest`, once each. */
  ghost predicate CreatedSoFar(unmatched: map<string, Status>, rest: map<string, Status>, created: seq<QueueElement>) {
    && (forall k :: k in rest ==> k in unmatched && rest[k] == unmatched[k])
    && (forall x :: x in created ==>
          x.reference in unmatched && x.reference !in rest && x.data == Flags(unmatched[x.reference]))
    && (forall k :: k in unmatched && k !in rest ==> multiset(Refs(created))[k] == 1)
  }

  lemma CreatedStep(unmatched: map<string, Status>, rest: map<string, Status>, created: seq<QueueElement>,
                    key: string, element: QueueElement)
    requires CreatedSoFar(unmatched, rest, created)
    requires key in rest && element.reference == key && element.data == Flags(rest[key])
    ensures CreatedSoFar(unmatched, rest - {key}, created + [element])
    ensures Creations(created + [element]) == Creations(created) + [Created(element)]
  {
    assert key !in Refs(created);
    RefsAppend(created, [element]);
  }

  /** The final loop: one new element, with its flags, per entry of `unmatched`. */
  method CreateUnmatched(o: Orchestrator, unmatched: map<string, Status>) returns (ghost created: seq<QueueElement>)
    requires o.Valid()
    modifies o
    ensures o.Valid()
    ensures o.elements == old(o.elements) + created
    ensures o.events == old(o.events) + Creations(created)
    ensures o.nextId == old(o.nextId) + |created|
    ensures forall x :: x in created ==> x.reference in unmatched && x.data == Flags(unmatched[x.reference])
    ensures forall k :: k in unmatched ==> multiset(Refs(created))[k] == 1
  {
    ghost var elements0 := o.elements;
    ghost var events0 := o.events;
    ghost var nextId0 := o.nextId;
    created := [];
    var rest := unmatched;
    while rest != map[]
      invariant o.Valid()
      invariant CreatedSoFar(unmatched, rest, created)
      invariant o.elements == elements0 + created
      invariant o.events == events0 + Creations(created)
      invariant o.nextId == nextId0 + |created|
      decreases |rest|
    {
      var key :| key in rest;
      var currentValue := rest[key];
      o.CreateQueueElement(key, Payload(currentValue.digitalPost, currentValue.nemsms));
      var element := o.elements[|o.elements| - 1];
      CreatedStep(unmatched, rest, created, key, element);
      created := created + [element];
      rest := rest - {key};
    }
  }

  /** The error raised when the process arguments name no recipient for the report. */
  const MissingRecipient := "KeyError: data_recipient"

  /**
   * One run. The queue snapshot is taken first; then the status dictionary is
   * built, and a raising lookup ends the run before anything is written.
   * Otherwise the snapshot is reconciled and, when there are changes, the
   * report is mailed to the recipient named in the process arguments
   * (`recipient`, absent when the arguments lack it) with the mail server's
   * answer `delivery`. A missing recipient or a refused delivery raises and
   * ends the run after the loop has already rewritten the queue; otherwise an
   * element is created for each reference no element matched.
   */
  method Process(o: Orchestrator, rows: seq<PersonRow>, lookup: Lookup, hash: Hash,
                 recipient: Option<string>, delivery: Result<()>)
    returns (outcome: Result<()>)
    requires o.Valid()
    modifies o
    ensures o.Valid()
    ensures match StatusMap(rows, lookup, hash)
            case Err(e) =>
              && outcome == Err(e)
              && o.elements == old(o.elements) && o.nextId == old(o.nextId) && o.events == old(o.events)
            case Ok(current) =>
              var w := Walk(old(o.elements), |old(o.elements)|, current, old(o.nextId));
              if w.changes != [] && (recipient.None? || delivery.Err?) then
                && outcome == (if recipient.None? then Err(MissingRecipient) else Err(delivery.error))
                && o.elements == Settled(w) && o.nextId == w.nextId && o.events == old(o.events) + w.events
              else
                var start := |old(o.events)| + |w.events|;
                && outcome == Ok(())
                && Mirrors(o.elements, current)
                && |Settled(w)| <= |o.elements|
                && o.elements[..|Settled(w)|] == Settled(w)
                && o.nextId == w.nextId + (|o.elements| - |Settled(w)|)
                && start <= |o.events|
                && o.events[..start] == old(o.events) + w.events
                && if w.changes == [] then o.events[start..] == Creations(o.elements[|Settled(w)|..])
                   else
                     && start < |o.events|
                     && o.events[start].EmailSent?
                     && o.events[start].recipient == recipient.value
                     && IsReportOf(o.events[start].attachment, w.changes)
                     && o.events[start + 1..] == Creations(o.elements[|Settled(w)|..])
  {
    var queueElements := o.GetQueueElements();
    ghost var firstId := o.nextId;
    var fetched := GetRegistrationStatusFromQuery(rows, lookup, hash);
    if fetched.Err? {
      return Err(fetched.error);
    }
    var currentStatus := fetched.value;
    ghost var w := Walk(queueElements, |queueElements|, currentStatus, firstId);

    var changes, unmatched := ReconcileQueue(o, queueElements, currentStatus);
    ghost var eventsBeforeReport := o.events;

    if |changes| > 0 {
      var returnSheet := WriteDataToOutputExcel(changes);
      if recipient.None? {
        return Err(MissingRecipient);
      }
      var sent := o.SendStatusEmail(recipient.value, returnSheet, delivery);
      if sent.Err? {
        return Err(sent.error);
      }
    }

    ghost var eventsBeforeCreation := o.events;
    ghost var created := CreateUnmatched(o, unmatched);
    SettledAndCreatedMirror(queueElements, currentStatus, firstId, created);
    assert o.elements[|Settled(w)|..] == created;
    assert o.elements[..|Settled(w)|] == Settled(w);
    if changes == [] {
      assert o.events == eventsBeforeReport + Creations(created);
    } else {
      assert o.events == eventsBeforeReport + [eventsBeforeCreation[|eventsBeforeReport|]] + Creations(created);
    }
    outcome := Ok(());
  }
}
