/** A votable ("stamp"): its lifecycle events with the notification and
    activity each one records, the archival of accepted siblings on
    acceptance, and `conclude!`, which hands the decision to a worker. */
module Votables {

  import opened Optional
  import opened Refs
  import opened Lifecycle
  import opened Tally

  /** A notification to the stamp's creator; `key` is the key of the
      activity it points to. */
  datatype Notification = Notification(recipient: Ref, actorId: int, read: bool, key: string, reference: Ref)

  /** A public activity recorded for a transition. */
  datatype Activity = Activity(key: string, owner: Ref, trackable: Ref, recipient: Ref)

  /** The background workers `conclude!` can hand a votable to. */
  datatype Worker = AcceptWorker | DenyWorker | DisputeWorker

  /** A submitted job: the worker and its arguments (class name, id). */
  datatype Task = Task(worker: Worker, className: string, id: int)

  /** The worker `conclude!` picks for a tally. The even split of a
      concludable tally has no defined outcome and is excluded. */
  function WorkerFor(up: nat, down: nat, powerThreshold: int, majorityThreshold: int): (w: Worker)
    requires !(TallyConcludable(up, down, powerThreshold, majorityThreshold) && MajorityTypeOf(up, down) == Even)
    ensures w == DisputeWorker <==> !TallyConcludable(up, down, powerThreshold, majorityThreshold)
    ensures w == AcceptWorker <==> TallyConcludable(up, down, powerThreshold, majorityThreshold) && up > down
    ensures w == DenyWorker <==> TallyConcludable(up, down, powerThreshold, majorityThreshold) && down > up
  {
    if !TallyConcludable(up, down, powerThreshold, majorityThreshold) then DisputeWorker
    else if MajorityTypeOf(up, down) == Upvoters then AcceptWorker
    else DenyWorker
  }

  /** The notification and activity tables. */
  class Journal {
    var notifications: seq<Notification>
    var activities: seq<Activity>

    constructor ()
      ensures notifications == [] && activities == []
    {
      notifications, activities := [], [];
    }
  }

  /** The background job queue. */
  class TaskQueue {
    var tasks: seq<Task>

    constructor ()
      ensures tasks == []
    {
      tasks := [];
    }
  }

  /** The states of `ss`, in order. */
  function StatesOf(ss: seq<Votable>): (st: seq<State>)
    reads ss
    ensures |st| == |ss| && forall k :: 0 <= k < |ss| ==> st[k] == ss[k].state
  {
    seq(|ss|, k reads ss requires 0 <= k < |ss| => ss[k].state)
  }

  /** The votables among the first `n` of `ss` whose state in `st` is
      accepted, in order. */
  function AcceptedAmong(ss: seq<Votable>, st: seq<State>, n: nat): (r: seq<Votable>)
    requires n <= |ss| == |st|
    ensures |r| <= n
  {
    if n == 0 then []
    else AcceptedAmong(ss, st, n - 1) + (if st[n - 1] == Accepted then [ss[n - 1]] else [])
  }

  /** Where no state is accepted there is nothing to archive, which is why
      archiving the accepted siblings a second time records nothing. */
  lemma {:induction false} NoneAccepted(ss: seq<Votable>, st: seq<State>, n: nat)
    requires n <= |ss| == |st|
    requires forall k :: 0 <= k < |st| ==> st[k] != Accepted
    ensures AcceptedAmong(ss, st, n) == []
  {
    if n > 0 {
      NoneAccepted(ss, st, n - 1);
    }
  }

  /** The notifications the archival of `vs` records, in order. */
  function ArchiveNotifications(vs: seq<Votable>): seq<Notification>
    decreases |vs|
  {
    if vs == [] then []
    else ArchiveNotifications(vs[..|vs| - 1]) + [vs[|vs| - 1].NotificationFor(Archive)]
  }

  /** The activities the archival of `vs` records, in order. */
  function ArchiveActivities(vs: seq<Votable>): seq<Activity>
    decreases |vs|
  {
    if vs == [] then []
    else ArchiveActivities(vs[..|vs| - 1]) + [vs[|vs| - 1].ActivityFor(Archive)]
  }

  /** Archiving one more votable appends its records to those of the others. */
  lemma ArchiveRecordsSnoc(vs: seq<Votable>, v: Votable)
    ensures ArchiveNotifications(vs + [v]) == ArchiveNotifications(vs) + [v.NotificationFor(Archive)]
    ensures ArchiveActivities(vs + [v]) == ArchiveActivities(vs) + [v.ActivityFor(Archive)]
  {
    assert (vs + [v])[..|vs|] == vs;
  }

  /** The notifications archiving the accepted among the first `n` of `ss`
      records, one pass over `ss`. */
  function ArchiveNotificationsAmong(ss: seq<Votable>, st: seq<State>, n: nat): seq<Notification>
    requires n <= |ss| == |st|
  {
    if n == 0 then []
    else ArchiveNotificationsAmong(ss, st, n - 1) + (if st[n - 1] == Accepted then [ss[n - 1].NotificationFor(Archive)] else [])
  }

  /** The activities archiving the accepted among the first `n` of `ss`
      records, one pass over `ss`. */
  function ArchiveActivitiesAmong(ss: seq<Votable>, st: seq<State>, n: nat): seq<Activity>
    requires n <= |ss| == |st|
  {
    if n == 0 then []
    else ArchiveActivitiesAmong(ss, st, n - 1) + (if st[n - 1] == Accepted then [ss[n - 1].ActivityFor(Archive)] else [])
  }

  /** The one-pass records are those of archiving the accepted votables in
      order. */
  lemma {:induction false} ArchiveRecordsAmong(ss: seq<Votable>, st: seq<State>, n: nat)
    requires n <= |ss| == |st|
    ensures ArchiveNotificationsAmong(ss, st, n) == ArchiveNotifications(AcceptedAmong(ss, st, n))
    ensures ArchiveActivitiesAmong(ss, st, n) == ArchiveActivities(AcceptedAmong(ss, st, n))
  {
    if n > 0 {
      ArchiveRecordsAmong(ss, st, n - 1);
      if st[n - 1] == Accepted {
        ArchiveRecordsSnoc(AcceptedAmong(ss, st, n - 1), ss[n - 1]);
      } else {
        assert AcceptedAmong(ss, st, n) == AcceptedAmong(ss, st, n - 1);
        assert ArchiveNotificationsAmong(ss, st, n) == ArchiveNotificationsAmong(ss, st, n - 1);
        assert ArchiveActivitiesAmong(ss, st, n) == ArchiveActivitiesAmong(ss, st, n - 1);
      }
    }
  }

  /** Within `group`, each stampable has at most one accepted votable. */
  ghost predicate OneAcceptedPerStampable(group: set<Votable>)
    reads group
  {
    forall a, b ::
      a in group && b in group && a.state == Accepted && b.state == Accepted && a.stampable == b.stampable
      ==> a == b
  }

  class Votable {
    const id: int
    const className: string
    /** The model's parameter key ("stamp" for a stamp). */
    const paramKey: string
    const creator: Ref
    const stampable: Ref
    var state: State
    /** The summed power of the up and down votes cast so far. */
    var upvotePower: nat
    var downvotePower: nat

    constructor (id: int, className: string, paramKey: string, creator: Ref, stampable: Ref,
                 state: State, upvotePower: nat, downvotePower: nat)
      ensures this.id == id && this.className == className && this.paramKey == paramKey
      ensures this.creator == creator && this.stampable == stampable
      ensures this.state == state
      ensures this.upvotePower == upvotePower && this.downvotePower == downvotePower
    {
      this.id, this.className, this.paramKey := id, className, paramKey;
      this.creator, this.stampable := creator, stampable;
      this.state := state;
      this.upvotePower, this.downvotePower := upvotePower, downvotePower;
    }

    function ActivityKey(e: Event): string
    {
      paramKey + "." + EventName(e)
    }

    function NotificationFor(e: Event): Notification
    {
      Notification(creator, SystemId, false, ActivityKey(e), Ref(className, id))
    }

    function ActivityFor(e: Event): Activity
    {
      Activity(ActivityKey(e), System, Ref(className, id), stampable)
    }

    /** `siblings` are distinct other votables on the same stampable. */
    ghost predicate SiblingsOf(siblings: seq<Votable>)
    {
      (forall i, j :: 0 <= i < j < |siblings| ==> siblings[i] != siblings[j]) &&
      forall k :: 0 <= k < |siblings| ==> siblings[k] != this && siblings[k].stampable == stampable
    }

    /** Fires `e`: moves to its target state and records exactly one
        notification to the creator (from the system, unread, keyed
        "<param_key>.<event>", referencing this votable) and exactly one
        activity (same key, owned by System -1, tracking this votable,
        addressed to the stampable). */
    method Fire(e: Event, tables: Journal)
      requires Transition(state, e).Some?
      modifies this`state, tables
      ensures state == Transition(old(state), e).value && state == Target(e)
      ensures tables.notifications == old(tables.notifications) + [NotificationFor(e)]
      ensures tables.activities == old(tables.activities) + [ActivityFor(e)]
      ensures var n := NotificationFor(e);
        n.recipient == creator && n.actorId == -1 && !n.read
        && n.key == paramKey + "." + EventName(e) && n.reference == Ref(className, id)
      ensures var a := ActivityFor(e);
        a.key == paramKey + "." + EventName(e) && a.owner == Ref("System", -1)
        && a.trackable == Ref(className, id) && a.recipient == stampable
    {
      state := Target(e);
      tables.notifications := tables.notifications + [NotificationFor(e)];
      tables.activities := tables.activities + [ActivityFor(e)];
    }

    method Deny(tables: Journal)
      requires state == InProgress
      modifies this`state, tables
      ensures state == Denied
      ensures tables.notifications == old(tables.notifications) + [NotificationFor(Event.Deny)]
      ensures tables.activities == old(tables.activities) + [ActivityFor(Event.Deny)]
    {
      Fire(Event.Deny, tables);
    }

    method Dispute(tables: Journal)
      requires state == InProgress
      modifies this`state, tables
      ensures state == Disputed
      ensures tables.notifications == old(tables.notifications) + [NotificationFor(Event.Dispute)]
      ensures tables.activities == old(tables.activities) + [ActivityFor(Event.Dispute)]
    {
      Fire(Event.Dispute, tables);
    }

    method Archive(tables: Journal)
      requires state == Accepted
      modifies this`state, tables
      ensures state == Archived
      ensures tables.notifications == old(tables.notifications) + [NotificationFor(Event.Archive)]
      ensures tables.activities == old(tables.activities) + [ActivityFor(Event.Archive)]
    {
      Fire(Event.Archive, tables);
    }

    /** Archives every accepted sibling, in order; the others keep their
        state. Run again, it finds nothing to archive. */
    method ArchiveAcceptedSiblings(siblings: seq<Votable>, tables: Journal)
      requires SiblingsOf(siblings)
      modifies siblings`state, tables
      ensures forall k :: 0 <= k < |siblings| ==>
        siblings[k].state == (if old(siblings[k].state) == Accepted then Archived else old(siblings[k].state))
      ensures tables.notifications
        == old(tables.notifications) + ArchiveNotifications(AcceptedAmong(siblings, old(StatesOf(siblings)), |siblings|))
      ensures tables.activities
        == old(tables.activities) + ArchiveActivities(AcceptedAmong(siblings, old(StatesOf(siblings)), |siblings|))
    {
      ghost var st := StatesOf(siblings);
      ghost var notes, acts := tables.notifications, tables.activities;
      var i := 0;
      while i < |siblings|
        invariant 0 <= i <= |siblings|
        invariant forall k :: 0 <= k < |siblings| ==>
          siblings[k].state == (if k < i && st[k] == Accepted then Archived else st[k])
        invariant tables.notifications == notes + ArchiveNotificationsAmong(siblings, st, i)
        invariant tables.activities == acts + ArchiveActivitiesAmong(siblings, st, i)
      {
        siblings[i].ArchiveIfAccepted(tables);
        i := i + 1;
      }
      ArchiveRecordsAmong(siblings, st, |siblings|);
    }

    /** Archives this votable if it is accepted; otherwise nothing changes. */
    method ArchiveIfAccepted(tables: Journal)
      modifies this`state, tables
      ensures state == (if old(state) == Accepted then Archived else old(state))
      ensures tables.notifications == old(tables.notifications)
        + (if old(state) == Accepted then [NotificationFor(Event.Archive)] else [])
      ensures tables.activities == old(tables.activities)
        + (if old(state) == Accepted then [ActivityFor(Event.Archive)] else [])
    {
      if state == Accepted {
        Archive(tables);
      }
    }

    /** Accepts this votable after archiving its accepted siblings, so that
        afterwards it is the only accepted votable on its stampable.
        `group` is any set of votables whose others on this stampable are
        all among `siblings`. */
    method Accept(siblings: seq<Votable>, tables: Journal, ghost group: set<Votable>)
      requires state == InProgress
      requires SiblingsOf(siblings)
      requires forall v :: v in group && v != this && v.stampable == stampable ==> v in siblings
      modifies this`state, siblings`state, tables
      ensures state == Accepted
      ensures forall s :: s in siblings ==>
        s.state == (if old(s.state) == Accepted then Archived else old(s.state))
      ensures tables.notifications == old(tables.notifications)
        + ArchiveNotifications(AcceptedAmong(siblings, old(StatesOf(siblings)), |siblings|)) + [NotificationFor(Event.Accept)]
      ensures tables.activities == old(tables.activities)
        + ArchiveActivities(AcceptedAmong(siblings, old(StatesOf(siblings)), |siblings|)) + [ActivityFor(Event.Accept)]
      ensures forall v :: v in group && v.stampable == stampable && v.state == Accepted ==> v == this
      ensures old(OneAcceptedPerStampable(group)) ==> OneAcceptedPerStampable(group)
    {
      ArchiveAcceptedSiblings(siblings, tables);
      Fire(Event.Accept, tables);
    }

    /** Hands the decision to exactly one worker, with this votable's class
        name and id, without changing its state. */
    method Conclude(queue: TaskQueue, powerThreshold: int, majorityThreshold: int)
      requires !(TallyConcludable(upvotePower, downvotePower, powerThreshold, majorityThreshold)
                 && MajorityTypeOf(upvotePower, downvotePower) == Even)
      modifies queue
      ensures queue.tasks == old(queue.tasks)
        + [Task(WorkerFor(upvotePower, downvotePower, powerThreshold, majorityThreshold), className, id)]
    {
      var worker := WorkerFor(upvotePower, downvotePower, powerThreshold, majorityThreshold);
      queue.tasks := queue.tasks + [Task(worker, className, id)];
    }
  }
}
