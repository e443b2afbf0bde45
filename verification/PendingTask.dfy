/** base/pending_task.cc: the order of delayed tasks, with sequence numbers that roll over. */
module PendingTasks {

  const HALF: int := 0x8000_0000
  type Int32 = x: int | -HALF <= x < HALF

  function ToInt32(x: int): Int32 {
    (x + HALF) % (2 * HALF) - HALF
  }

  datatype PendingTask = PendingTask(delayedRunTime: int, sequenceNum: Int32) {

    // operator<: the greatest task is the one to run first.
    predicate Less(other: PendingTask) {
      if delayedRunTime < other.delayedRunTime then false
      else if delayedRunTime > other.delayedRunTime then true
      else ToInt32(sequenceNum - other.sequenceNum) > 0
    }
  }

  /** A task with the number of tasks that were posted before it, of which its sequence number
      is the last 32 bits. */
  datatype Posted = Posted(time: int, count: int) {
    function Task(): PendingTask {
      PendingTask(time, ToInt32(count))
    }

    predicate Before(other: Posted) {
      time < other.time || (time == other.time && count < other.count)
    }
  }

  lemma DifferenceOfImages(c: int, d: int)
    ensures ToInt32(ToInt32(c) - ToInt32(d)) == ToInt32(c - d)
  {
  }

  lemma ToInt32OfSmall(x: int)
    requires -HALF < x < HALF
    ensures ToInt32(x) == x
  {
  }

  predicate Apart(a: Posted, b: Posted, span: nat) {
    a.count <= b.count + span && b.count <= a.count + span
  }

  /** Exactly when the posts are less than 2^31 apart is every comparison right. */
  lemma LessIsAfter(span: nat)
    ensures (forall a: Posted, b: Posted :: Apart(a, b, span) ==>
              (a.Task().Less(b.Task()) <==> b.Before(a)))
            <==> span < 0x8000_0000
  {
    if span < HALF {
      forall a: Posted, b: Posted | Apart(a, b, span)
        ensures a.Task().Less(b.Task()) <==> b.Before(a)
      {
        DifferenceOfImages(a.count, b.count);
        hide ToInt32;
        ToInt32OfSmall(a.count - b.count);
      }
    } else {
      var a, b := Posted(0, HALF), Posted(0, 0);
      assert Apart(a, b, span);
      assert b.Before(a) && !a.Task().Less(b.Task());
    }
  }

  // ----- a priority queue

  predicate CloseTogether(pending: set<Posted>) {
    && (forall a, b :: a in pending && b in pending ==> a.count - b.count < HALF)
    && (forall a, b :: a in pending && b in pending && a.count == b.count ==> a == b)
  }

  /** What top() of a priority queue may be: a greatest element. */
  predicate IsTop(task: Posted, pending: set<Posted>) {
    task in pending && forall other :: other in pending ==> !task.Task().Less(other.Task())
  }

  lemma TopIsEarliest(task: Posted, pending: set<Posted>)
    requires CloseTogether(pending) && task in pending
    ensures IsTop(task, pending) <==> forall other :: other in pending && other != task ==> task.Before(other)
  {
    forall other | other in pending
      ensures task.Task().Less(other.Task()) <==> other.Before(task)
    {
      assert Apart(task, other, HALF - 1);
      LessIsAfter(HALF - 1);
    }
  }

  /** Among tasks posted close together the comparison is a strict total order. */
  lemma StrictTotalOrder(a: Posted, b: Posted, c: Posted, pending: set<Posted>)
    requires CloseTogether(pending) && a in pending && b in pending && c in pending
    ensures !a.Task().Less(a.Task())
    ensures a.Task().Less(b.Task()) && b.Task().Less(c.Task()) ==> a.Task().Less(c.Task())
    ensures a == b || a.Task().Less(b.Task()) || b.Task().Less(a.Task())
    ensures a.Task().Less(b.Task()) ==> !b.Task().Less(a.Task())
  {
    LessIsAfter(HALF - 1);
    assert Apart(a, b, HALF - 1) && Apart(b, a, HALF - 1) && Apart(b, c, HALF - 1) && Apart(a, c, HALF - 1)
        && Apart(a, a, HALF - 1);
    hide PendingTask.Less;
  }

  // Far apart it is not even that: each is before the next, and the last before the first.
  lemma FarApartItIsACircle()
    ensures var a, b := PendingTask(0, ToInt32(0)), PendingTask(0, ToInt32(0x6000_0000));
      var c := PendingTask(0, ToInt32(0xC000_0000));
      b.Less(a) && c.Less(b) && a.Less(c)
  {
    assert ToInt32(0) == 0 && ToInt32(0x6000_0000) == 0x6000_0000 && ToInt32(0xC000_0000) == -0x4000_0000;
    assert ToInt32(-0xA000_0000) == 0x6000_0000;
    hide ToInt32;
    ToInt32OfSmall(0x6000_0000);
    ToInt32OfSmall(0x4000_0000);
  }

  // ----- runs

  datatype Event = Post(time: int) | Pop(task: Posted)
  datatype Queue = Queue(pending: set<Posted>, posted: int)

  function Next(q: Queue, e: Event): Queue {
    match e
    case Post(time) => Queue(q.pending + {Posted(time, q.posted)}, q.posted + 1)
    case Pop(task) => q.(pending := q.pending - {task})
  }

  /** Only the top is ever removed, and what is in the queue together was posted close together. */
  predicate Legal(q: Queue, events: seq<Event>)
    decreases |events|
  {
    events == [] ||
    (&& (events[0].Pop? ==> IsTop(events[0].task, q.pending))
     && CloseTogether(q.pending)
     && Legal(Next(q, events[0]), events[1..]))
  }

  function After(q: Queue, events: seq<Event>, n: nat): Queue
    requires n <= |events|
    decreases |events|
  {
    if n == 0 then q else After(Next(q, events[0]), events[1..], n - 1)
  }

  predicate PostedBefore(q: Queue) {
    forall t :: t in q.pending ==> t.count < q.posted
  }

  lemma {:induction false} PopsArePendingOrLater(q: Queue, events: seq<Event>, j: nat)
    requires Legal(q, events) && PostedBefore(q) && j < |events| && events[j].Pop?
    ensures events[j].task in q.pending || events[j].task.count >= q.posted
    decreases |events|
  {
    if j == 0 {
    } else {
      PopsArePendingOrLater(Next(q, events[0]), events[1..], j - 1);
    }
  }

  /** In every run tasks for the same time run in the order they were posted in, and of two
      tasks that were in the queue together the one that runs first was due first. */
  lemma {:induction false} RunsInOrder(q: Queue, events: seq<Event>, i: nat, j: nat)
    requires Legal(q, events) && PostedBefore(q)
    requires i < j < |events| && events[i].Pop? && events[j].Pop?
    ensures events[i].task.time == events[j].task.time ==> events[i].task.count < events[j].task.count
    ensures events[j].task in After(q, events, i).pending ==> events[i].task.Before(events[j].task)
    decreases |events|
  {
    if i > 0 {
      RunsInOrder(Next(q, events[0]), events[1..], i - 1, j - 1);
    } else {
      var task, rest := events[0].task, Next(q, events[0]);
      TopIsEarliest(task, q.pending);
      PopsArePendingOrLater(rest, events[1..], j - 1);
    }
  }
}
