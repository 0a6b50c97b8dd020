/**
 * The seat monitor's activity feed (src/app/dashboard/org/stages/page.tsx): on every
 * fresh snapshot of the seats, each seat whose status differs from the previous
 * snapshot becomes an activity, prepended to a log of at most 50 entries.
 */
module SeatMonitor {
  import opened Wrappers
  import opened Strings
  import opened Sorting
  import opened Numerals
  import opened ClientTypes

  /** The feed keeps this many activities, newest first. */
  const MaxActivities := 50

  datatype ActivityType = ReservedActivity | LockedActivity | ReleasedActivity

  /** An activity; its time stamp comes from the clock and is not modelled. */
  datatype ActivityItem = ActivityItem(id: string, message: string, kind: ActivityType)

  /** A seat as the feed names it: `${seat.row}${seat.number}`. */
  function SeatLabel(seat: SeatView): string {
    seat.row + IntToString(seat.number)
  }

  datatype Description = Description(message: string, kind: ActivityType)

  /** The message and type of an activity, chosen by the seat's new status. */
  function Describe(seat: SeatView): (d: Description)
    ensures d.kind == ReservedActivity <==> seat.status == Some("reserved")
    ensures d.kind == LockedActivity <==> seat.status == Some("locked")
    ensures d.kind == ReleasedActivity <==> seat.status != Some("reserved") && seat.status != Some("locked")
  {
    var tag := SeatLabel(seat);
    if seat.status == Some("reserved") then
      Description("Seat " + tag + " was reserved" + (if Truthy(seat.reservedBy) then " by " + seat.reservedBy.value else ""),
                  ReservedActivity)
    else if seat.status == Some("locked") then
      Description("Seat " + tag + " is being locked / held", LockedActivity)
    else
      Description("Seat " + tag + " became available", ReleasedActivity)
  }

  /** Every message opens with "Seat " and the seat's label. */
  lemma MessageNamesSeat(seat: SeatView)
    ensures StartsWith(Describe(seat).message, "Seat " + SeatLabel(seat))
  {
  }

  /** A reserved seat's message names the reserver, after " by ", exactly when reservedBy is truthy. */
  lemma ReserverNamed(seat: SeatView)
    ensures var prefix := "Seat " + SeatLabel(seat) + " was reserved";
      seat.status == Some("reserved") ==>
        && (Truthy(seat.reservedBy) ==> Describe(seat).message == prefix + " by " + seat.reservedBy.value)
        && (!Truthy(seat.reservedBy) ==> Describe(seat).message == prefix)
  {
  }

  /** new Map(prev.map((s) => [s._id, s])): a later seat with the same id replaces an earlier one. */
  function IndexById(prev: seq<SeatView>): (m: map<string, SeatView>)
    ensures m.Keys == set s | s in prev :: s.id
    ensures forall id :: id in m ==> m[id] in prev && m[id].id == id
  {
    if prev == [] then map[]
    else
      var last := prev[|prev| - 1];
      var m := IndexById(prev[..|prev| - 1])[last.id := last];
      assert forall s :: s in prev ==> s in prev[..|prev| - 1] || s == last;
      m
  }

  /** The map holds, for each id, the last seat in prev carrying it. */
  lemma {:induction false} IndexByIdLast(prev: seq<SeatView>, i: nat)
    requires i < |prev|
    requires forall j :: i < j < |prev| ==> prev[j].id != prev[i].id
    ensures IndexById(prev)[prev[i].id] == prev[i]
  {
    if i < |prev| - 1 {
      IndexByIdLast(prev[..|prev| - 1], i);
    }
  }

  /** A seat that was in the previous snapshot under the same id with another status. */
  function HasChanged(prevMap: map<string, SeatView>): SeatView -> bool {
    (seat: SeatView) => seat.id in prevMap && prevMap[seat.id].status != seat.status
  }

  /** The seats that give rise to an activity, in snapshot order. */
  function ChangedSeats(prevMap: map<string, SeatView>, seats: seq<SeatView>): seq<SeatView> {
    Filter(seats, HasChanged(prevMap))
  }

  /** A seat absent from the previous snapshot, or with its old status, emits nothing. */
  lemma UnchangedSeatsSilent(prevMap: map<string, SeatView>, seats: seq<SeatView>, seat: SeatView)
    requires seat.id !in prevMap || prevMap[seat.id].status == seat.status
    ensures seat !in ChangedSeats(prevMap, seats)
  {
    FilterCounts(seats, HasChanged(prevMap));
    assert multiset(ChangedSeats(prevMap, seats))[seat] == 0;
  }

  /** Every seat of the snapshot whose status changed is reported. */
  lemma ChangedSeatsReported(prevMap: map<string, SeatView>, seats: seq<SeatView>, seat: SeatView)
    requires seat in seats && seat.id in prevMap && prevMap[seat.id].status != seat.status
    ensures seat in ChangedSeats(prevMap, seats)
  {
    FilterCounts(seats, HasChanged(prevMap));
    assert multiset(seats)[seat] > 0;
  }

  /** The activity for a changed seat, carrying the counter value id. */
  function Activity(seat: SeatView, id: nat): (item: ActivityItem)
    ensures item.id == NatToString(id)
    ensures item.message == Describe(seat).message && item.kind == Describe(seat).kind
  {
    ActivityItem(NatToString(id), Describe(seat).message, Describe(seat).kind)
  }

  /** The activities for the changed seats, numbered from firstId on, newest first. */
  function BatchActivities(changed: seq<SeatView>, firstId: nat): (items: seq<ActivityItem>)
    ensures |items| == |changed|
  {
    if changed == [] then []
    else [Activity(changed[|changed| - 1], firstId + |changed| - 1)] + BatchActivities(changed[..|changed| - 1], firstId)
  }

  /** Entry k of the batch describes the k-th changed seat from the end and carries the id firstId + n - 1 - k. */
  lemma {:induction false} BatchEntry(changed: seq<SeatView>, firstId: nat, k: nat)
    requires k < |changed|
    ensures BatchActivities(changed, firstId)[k] == Activity(changed[|changed| - 1 - k], firstId + |changed| - 1 - k)
  {
    if k > 0 {
      var init := changed[..|changed| - 1];
      var rest := BatchActivities(init, firstId);
      assert BatchActivities(changed, firstId) == [Activity(changed[|changed| - 1], firstId + |changed| - 1)] + rest;
      assert BatchActivities(changed, firstId)[k] == rest[k - 1];
      var n := |changed|;
      assert |init| == n - 1;
      assert init[n - 1 - k] == changed[n - 1 - k];
      BatchEntry(init, firstId, k - 1);
      assert |init| - 1 - (k - 1) == n - 1 - k;
      assert rest[k - 1] == Activity(init[n - 1 - k], firstId + n - 1 - k);
    }
  }

  /**
   * Every snapshot seat whose status changed has an activity in the batch: the j-th
   * changed seat sits at position n - 1 - j and carries the id firstId + j.
   */
  lemma ChangeLoggedInBatch(prevMap: map<string, SeatView>, seats: seq<SeatView>, seat: SeatView, firstId: nat)
    requires seat in seats && seat.id in prevMap && prevMap[seat.id].status != seat.status
    ensures var changed := ChangedSeats(prevMap, seats);
      exists j ::
        && 0 <= j < |changed| && changed[j] == seat
        && BatchActivities(changed, firstId)[|changed| - 1 - j] == Activity(seat, firstId + j)
  {
    ChangedSeatsReported(prevMap, seats, seat);
    InBatch(ChangedSeats(prevMap, seats), seat, firstId);
  }

  lemma InBatch(changed: seq<SeatView>, seat: SeatView, firstId: nat)
    requires seat in changed
    ensures exists j ::
      && 0 <= j < |changed| && changed[j] == seat
      && BatchActivities(changed, firstId)[|changed| - 1 - j] == Activity(seat, firstId + j)
  {
    var j :| 0 <= j < |changed| && changed[j] == seat;
    BatchEntry(changed, firstId, |changed| - 1 - j);
  }

  /** [newActivity, ...prev].slice(0, 50) */
  function Window(log: seq<ActivityItem>): (w: seq<ActivityItem>)
    ensures |w| <= MaxActivities
    ensures |w| == if |log| < MaxActivities then |log| else MaxActivities
    ensures w == log[..|w|]
  {
    if |log| <= MaxActivities then log else log[..MaxActivities]
  }

  /** Truncating after every prepend is the same as truncating once at the end. */
  lemma WindowPrepend(x: ActivityItem, log: seq<ActivityItem>)
    ensures Window([x] + Window(log)) == Window([x] + log)
  {
  }

  /** The numbers behind the ids of log strictly decrease and all lie below next. */
  ghost predicate NewestFirstLog(log: seq<ActivityItem>, next: nat) {
    && (forall i :: 0 <= i < |log| ==> forall k :: 0 <= k < |log[i].id| ==> IsDigit(log[i].id[k]))
    && (forall i :: 0 <= i < |log| ==> ParseNat(log[i].id) < next)
    && (forall i, j :: 0 <= i < j < |log| ==> ParseNat(log[i].id) > ParseNat(log[j].id))
  }

  /** In such a log no two activities share an id. */
  lemma NewestFirstIdsDistinct(log: seq<ActivityItem>, next: nat)
    requires NewestFirstLog(log, next)
    ensures forall i, j :: 0 <= i < j < |log| ==> log[i].id != log[j].id
  {
  }

  /** An activity numbered next, put in front, keeps the log newest first. */
  lemma PrependNewest(x: ActivityItem, log: seq<ActivityItem>, next: nat)
    requires NewestFirstLog(log, next)
    requires x.id == NatToString(next)
    ensures NewestFirstLog([x] + log, next + 1)
  {
    ParseNatToString(next);
    var all := [x] + log;
    forall i | 0 < i < |all| ensures all[i] == log[i - 1] {
    }
  }

  /** A window of a newest-first log is newest first. */
  lemma WindowNewestFirst(log: seq<ActivityItem>, next: nat)
    requires NewestFirstLog(log, next)
    ensures NewestFirstLog(Window(log), next)
  {
    var w := Window(log);
    assert forall i :: 0 <= i < |w| ==> w[i] == log[i];
  }

  lemma PrependBatch(x: ActivityItem, batch: seq<ActivityItem>, log: seq<ActivityItem>)
    ensures ([x] + batch) + log == [x] + (batch + log)
  {
  }

  /** Putting the activities of a batch in front keeps the log newest first. */
  lemma {:induction false} BatchNewestFirst(changed: seq<SeatView>, log: seq<ActivityItem>, next: nat)
    requires NewestFirstLog(log, next)
    ensures NewestFirstLog(BatchActivities(changed, next) + log, next + |changed|)
  {
    if changed != [] {
      var init := changed[..|changed| - 1];
      var x := Activity(changed[|changed| - 1], next + |init|);
      BatchNewestFirst(init, log, next);
      PrependNewest(x, BatchActivities(init, next) + log, next + |init|);
      PrependBatch(x, BatchActivities(init, next), log);
    }
  }

  /** The log after a batch, windowed, is newest first with a counter moved on by the batch size. */
  lemma LogStaysNewestFirst(changed: seq<SeatView>, log: seq<ActivityItem>, next: nat)
    requires NewestFirstLog(log, next)
    ensures NewestFirstLog(Window(BatchActivities(changed, next) + log), next + |changed|)
  {
    BatchNewestFirst(changed, log, next);
    WindowNewestFirst(BatchActivities(changed, next) + log, next + |changed|);
  }

  class Monitor {
    /** The event whose seats are shown; only its identity matters here. */
    var selectedEvent: Option<string>
    var activities: seq<ActivityItem>
    /** prevSeatsRef.current */
    var prevSeats: seq<SeatView>
    /** activityIdRef.current */
    var nextActivityId: nat

    ghost predicate Valid()
      reads this
    {
      |activities| <= MaxActivities && NewestFirstLog(activities, nextActivityId)
    }

    constructor()
      ensures Valid()
      ensures selectedEvent == None && activities == [] && prevSeats == [] && nextActivityId == 0
    {
      selectedEvent := None;
      activities := [];
      prevSeats := [];
      nextActivityId := 0;
    }

    /** Choosing an event clears the feed and forgets the previous snapshot. */
    method SelectEvent(event: string)
      requires Valid()
      modifies this
      ensures Valid()
      ensures selectedEvent == Some(event) && activities == [] && prevSeats == []
      ensures nextActivityId == old(nextActivityId)
    {
      selectedEvent := Some(event);
      activities := [];
      prevSeats := [];
    }

    /**
     * The effect run on each new snapshot: with either snapshot empty it only stores
     * the new one; otherwise every changed seat, in snapshot order, is put in front
     * of the log, which keeps its 50 newest entries. The snapshot is stored last.
     */
    method OnSeats(seats: seq<SeatView>)
      requires Valid()
      modifies this
      ensures Valid()
      ensures prevSeats == seats && selectedEvent == old(selectedEvent)
      ensures old(prevSeats) == [] || seats == [] ==>
        activities == old(activities) && nextActivityId == old(nextActivityId)
      ensures old(prevSeats) != [] && seats != [] ==>
        var changed := ChangedSeats(IndexById(old(prevSeats)), seats);
        && activities == Window(BatchActivities(changed, old(nextActivityId)) + old(activities))
        && nextActivityId == old(nextActivityId) + |changed|
    {
      if |prevSeats| == 0 || |seats| == 0 {
        prevSeats := seats;
        return;
      }
      var prevMap := IndexById(prevSeats);
      ghost var start := FeedState(activities, nextActivityId);
      var i := 0;
      while i < |seats|
        invariant 0 <= i <= |seats|
        invariant FeedState(activities, nextActivityId) == Feed(prevMap, seats[..i], start)
        invariant selectedEvent == old(selectedEvent)
      {
        var seat := seats[i];
        FeedSnoc(prevMap, seats, i, start);
        if seat.id in prevMap && prevMap[seat.id].status != seat.status {
          var item := Activity(seat, nextActivityId);
          nextActivityId := nextActivityId + 1;
          activities := Window([item] + activities);
        }
        i := i + 1;
      }
      assert seats[..i] == seats;
      FeedClosedForm(prevMap, seats, start.log, start.next);
      LogStaysNewestFirst(ChangedSeats(prevMap, seats), start.log, start.next);
      prevSeats := seats;
    }
  }

  /** What the loop carries: the activity log and activityIdRef.current. */
  datatype FeedState = FeedState(log: seq<ActivityItem>, next: nat)

  /** One seat of the forEach: a seat found in prevMap under another status adds an activity. */
  function Step(prevMap: map<string, SeatView>, st: FeedState, seat: SeatView): FeedState {
    if seat.id in prevMap && prevMap[seat.id].status != seat.status then
      FeedState(Window([Activity(seat, st.next)] + st.log), st.next + 1)
    else st
  }

  /** The forEach over seats, from the given starting state. */
  function Feed(prevMap: map<string, SeatView>, seats: seq<SeatView>, st: FeedState): FeedState {
    if seats == [] then st else Step(prevMap, Feed(prevMap, seats[..|seats| - 1], st), seats[|seats| - 1])
  }

  lemma FeedSnoc(prevMap: map<string, SeatView>, seats: seq<SeatView>, i: nat, st: FeedState)
    requires i < |seats|
    ensures Feed(prevMap, seats[..i + 1], st) == Step(prevMap, Feed(prevMap, seats[..i], st), seats[i])
  {
    assert seats[..i + 1][..i] == seats[..i];
  }

  /**
   * The forEach puts the activities of the changed seats in front of the log, newest
   * first and numbered on from the counter, and the log keeps its 50 newest entries.
   */
  lemma {:induction false} FeedClosedForm(prevMap: map<string, SeatView>, seats: seq<SeatView>, log: seq<ActivityItem>, next: nat)
    requires |log| <= MaxActivities
    ensures var changed := ChangedSeats(prevMap, seats);
      Feed(prevMap, seats, FeedState(log, next)) == FeedState(Window(BatchActivities(changed, next) + log), next + |changed|)
  {
    if seats != [] {
      var init, x := seats[..|seats| - 1], seats[|seats| - 1];
      assert seats == init + [x];
      FeedClosedForm(prevMap, init, log, next);
      ClosedFormStep(prevMap, init, x, log, next);
    }
  }

  lemma ClosedFormStep(prevMap: map<string, SeatView>, init: seq<SeatView>, x: SeatView, log: seq<ActivityItem>, next: nat)
    ensures var before, after := ChangedSeats(prevMap, init), ChangedSeats(prevMap, init + [x]);
      Step(prevMap, FeedState(Window(BatchActivities(before, next) + log), next + |before|), x)
        == FeedState(Window(BatchActivities(after, next) + log), next + |after|)
  {
    FilterSnoc(init, x, HasChanged(prevMap));
    if HasChanged(prevMap)(x) {
      ChangedStep(ChangedSeats(prevMap, init), x, log, next);
    }
  }

  /** A changed seat's activity goes in front, numbered by the size of the batch before it. */
  lemma ChangedStep(before: seq<SeatView>, x: SeatView, log: seq<ActivityItem>, next: nat)
    ensures Window([Activity(x, next + |before|)] + Window(BatchActivities(before, next) + log))
         == Window(BatchActivities(before + [x], next) + log)
  {
    var item := Activity(x, next + |before|);
    assert (before + [x])[..|before|] == before;
    assert BatchActivities(before + [x], next) + log == [item] + (BatchActivities(before, next) + log);
    WindowPrepend(item, BatchActivities(before, next) + log);
  }
}
