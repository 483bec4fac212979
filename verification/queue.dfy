/**
 * The orchestrator's work queue as the run sees it: the elements persisted by
 * earlier runs, each with an id, a reference (a citizen's pseudonym) and a
 * payload holding the two flags last seen. The run's outward actions (queue
 * deletions and creations, and the status email) are recorded in order in
 * an event log.
 */
module Queue {
  import opened Results
  import opened Report

  /** The JSON payload `{"digital_post": .., "nemsms": ..}`. */
  datatype Payload = Payload(digitalPost: bool, nemsms: bool)

  datatype QueueElement = QueueElement(id: nat, reference: string, data: Payload)

  datatype Event =
    | Deleted(id: nat)
    | Created(element: QueueElement)
    | EmailSent(recipient: string, attachment: Sheet)

  /** The references of `s`, position by position. */
  function Refs(s: seq<QueueElement>): seq<string>
  {
    seq(|s|, i requires 0 <= i < |s| => s[i].reference)
  }

  lemma RefsAppend(a: seq<QueueElement>, b: seq<QueueElement>)
    ensures Refs(a + b) == Refs(a) + Refs(b)
  {
  }

  /** The creation events of the elements of `s`, in order. */
  function Creations(s: seq<QueueElement>): seq<Event>
  {
    seq(|s|, i requires 0 <= i < |s| => Created(s[i]))
  }

  predicate DistinctIds(s: seq<QueueElement>) {
    forall i, j :: 0 <= i < j < |s| ==> s[i].id != s[j].id
  }

  /** `s` without its elements whose id is `id`. */
  function RemoveId(s: seq<QueueElement>, id: nat): (r: seq<QueueElement>)
    ensures forall x :: x in r <==> x in s && x.id != id
    decreases |s|
  {
    if s == [] then []
    else if s[0].id == id then RemoveId(s[1..], id)
    else [s[0]] + RemoveId(s[1..], id)
  }

  /** Removing an id that no element has leaves the sequence as it is. */
  lemma {:induction false} RemoveAbsentId(s: seq<QueueElement>, id: nat)
    requires forall x :: x in s ==> x.id != id
    ensures RemoveId(s, id) == s
    decreases |s|
  {
    if s != [] {
      assert s[0] in s;
      RemoveAbsentId(s[1..], id);
    }
  }

  /** Removing the id of an element whose id is unique removes exactly that element. */
  lemma {:induction false} RemoveUniqueId(a: seq<QueueElement>, e: QueueElement, b: seq<QueueElement>)
    requires DistinctIds(a + [e] + b)
    ensures RemoveId(a + [e] + b, e.id) == a + b
    decreases |a|
  {
    var s := a + [e] + b;
    if a == [] {
      assert s[1..] == b;
      forall x | x in b ensures x.id != e.id {
        var k :| 0 <= k < |b| && b[k] == x;
        assert s[0] == e && s[k + 1] == b[k];
      }
      RemoveAbsentId(b, e.id);
    } else {
      assert s[0] == a[0] && s[0].id != e.id by {
        assert s[|a|] == e;
      }
      assert s[1..] == a[1..] + [e] + b;
      RemoveUniqueId(a[1..], e, b);
      assert [a[0]] + (a[1..] + b) == a + b;
    }
  }

  class Orchestrator {
    var elements: seq<QueueElement>
    var nextId: nat
    var events: seq<Event>

    /** Ids are unique and every id in use is below the next id to hand out. */
    ghost predicate Valid()
      reads this
    {
      DistinctIds(elements) && forall x :: x in elements ==> x.id < nextId
    }

    constructor (initial: seq<QueueElement>, firstFreeId: nat)
      requires DistinctIds(initial)
      requires forall x :: x in initial ==> x.id < firstFreeId
      ensures Valid()
      ensures elements == initial && nextId == firstFreeId && events == []
    {
      elements := initial;
      nextId := firstFreeId;
      events := [];
    }

    method GetQueueElements() returns (queueElements: seq<QueueElement>)
      ensures queueElements == elements
    {
      queueElements := elements;
    }

    method DeleteQueueElement(id: nat)
      requires Valid()
      modifies this
      ensures Valid()
      ensures elements == RemoveId(old(elements), id)
      ensures nextId == old(nextId)
      ensures events == old(events) + [Deleted(id)]
    {
      DistinctAfterRemove(elements, id);
      elements := RemoveId(elements, id);
      events := events + [Deleted(id)];
    }

    /** Adds an element with a fresh id at the end of the queue. */
    method CreateQueueElement(reference: string, data: Payload)
      requires Valid()
      modifies this
      ensures Valid()
      ensures elements == old(elements) + [QueueElement(old(nextId), reference, data)]
      ensures nextId == old(nextId) + 1
      ensures events == old(events) + [Created(QueueElement(old(nextId), reference, data))]
    {
      var element := QueueElement(nextId, reference, data);
      elements := elements + [element];
      events := events + [Created(element)];
      nextId := nextId + 1;
    }

    /**
     * The status email with its attachment. `delivery` is what the mail
     * server answers; a refused delivery raises, and then nothing is sent.
     */
    method SendStatusEmail(recipient: string, attachment: Sheet, delivery: Result<()>) returns (sent: Result<()>)
      modifies this
      ensures sent == delivery
      ensures elements == old(elements) && nextId == old(nextId)
      ensures events == if delivery.Ok? then old(events) + [EmailSent(recipient, attachment)] else old(events)
    {
      sent := delivery;
      if delivery.Ok? {
        events := events + [EmailSent(recipient, attachment)];
      }
    }
  }

  lemma {:induction false} DistinctAfterRemove(s: seq<QueueElement>, id: nat)
    requires DistinctIds(s)
    ensures DistinctIds(RemoveId(s, id))
    decreases |s|
  {
    if s != [] {
      DistinctAfterRemove(s[1..], id);
      if s[0].id != id {
        var r := RemoveId(s[1..], id);
        forall j | 0 <= j < |r| ensures s[0].id != r[j].id {
          assert r[j] in s[1..];
        }
      }
    }
  }
}
