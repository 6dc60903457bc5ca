/** The notification queue (context/NotificationContext.tsx): an
    append-only `add` and a filter-by-id `remove` over a list of
    `{id, message}` entries. The id comes from `Date.now()`, which the model
    takes as a parameter. */
module Notifications {
  import opened Sequences

  datatype NotificationMessage = NotificationMessage(id: int, message: string)

  /** `prev.filter(n => n.id !== id)`: drops every entry carrying `id` and
      keeps every other entry, in order. */
  function WithoutId(queue: seq<NotificationMessage>, id: int): (r: seq<NotificationMessage>)
    ensures IsSubsequence(r, queue)
    ensures forall n :: n in r ==> n.id != id
    ensures forall n :: n in queue && n.id != id ==> n in r
  {
    if queue == [] then []
    else if queue[0].id != id then [queue[0]] + WithoutId(queue[1..], id)
    else WithoutId(queue[1..], id)
  }

  /** Removing an id that no entry carries leaves the queue as it was. */
  lemma {:induction false} RemoveAbsentIsIdentity(queue: seq<NotificationMessage>, id: int)
    requires forall n :: n in queue ==> n.id != id
    ensures WithoutId(queue, id) == queue
  {
    if queue != [] {
      assert queue[0] in queue;
      assert forall n :: n in queue[1..] ==> n in queue;
      RemoveAbsentIsIdentity(queue[1..], id);
      assert [queue[0]] + queue[1..] == queue;
    }
  }

  /** Removing the same id twice is removing it once. */
  lemma RemoveIdempotent(queue: seq<NotificationMessage>, id: int)
    ensures WithoutId(WithoutId(queue, id), id) == WithoutId(queue, id)
  {
    RemoveAbsentIsIdentity(WithoutId(queue, id), id);
  }

  /** Removal distributes over an appended entry. */
  lemma {:induction false} RemoveAfterAppend(queue: seq<NotificationMessage>, m: NotificationMessage, id: int)
    ensures WithoutId(queue + [m], id)
         == WithoutId(queue, id) + (if m.id == id then [] else [m])
  {
    if queue == [] {
      assert [m][1..] == [];
    } else {
      assert (queue + [m])[1..] == queue[1..] + [m];
      RemoveAfterAppend(queue[1..], m, id);
    }
  }

  /** Two messages added within the same millisecond share their id, so one
      removal deletes both, whatever their texts. */
  lemma SameMillisecondRemovedTogether(queue: seq<NotificationMessage>, now: int, first: string, second: string)
    ensures WithoutId(queue + [NotificationMessage(now, first)] + [NotificationMessage(now, second)], now)
         == WithoutId(queue, now)
  {
    RemoveAfterAppend(queue + [NotificationMessage(now, first)], NotificationMessage(now, second), now);
    RemoveAfterAppend(queue, NotificationMessage(now, first), now);
  }

  /** The provider's queue state. */
  class NotificationCenter {
    var notifications: seq<NotificationMessage>

    /** The queue starts empty. */
    constructor ()
      ensures notifications == []
    {
      notifications := [];
    }

    /** `addNotification(message)` at time `now`: one entry appended at the
        end, no deduplication. */
    method AddNotification(now: int, message: string)
      modifies this
      ensures notifications == old(notifications) + [NotificationMessage(now, message)]
    {
      notifications := notifications + [NotificationMessage(now, message)];
    }

    /** `removeNotification(id)`. */
    method RemoveNotification(id: int)
      modifies this
      ensures notifications == WithoutId(old(notifications), id)
    {
      notifications := WithoutId(notifications, id);
    }
  }

  /** Adding the same message twice yields two equal entries after the
      earlier ones: there is no deduplication. */
  method AddTwice(center: NotificationCenter, now: int, message: string)
    modifies center
    ensures center.notifications
         == old(center.notifications) + [NotificationMessage(now, message), NotificationMessage(now, message)]
  {
    center.AddNotification(now, message);
    center.AddNotification(now, message);
  }
}
