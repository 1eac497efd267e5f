/** `SubscriptionController`: the three request handlers over the database
    state they read and write. The database is the controller's fields; the
    mailer is a log of the notifications handed to it. */
module Controller {
  import opened Time
  import opened Subscriptions

  /** The message handed to the mailer after a subscription: addressed to the
      meetup's provider, naming the meetup and the subscriber. */
  datatype Notification = Notification(provider: UserId, meetupTitle: string, subscriber: UserId)

  class SubscriptionController {
    var meetups: map<MeetupId, Meetup>
    var subscriptions: set<Subscription>
    var mails: seq<Notification>

    function Model(): (st: State)
      reads this
    {
      State(meetups, subscriptions)
    }

    constructor (meetups: map<MeetupId, Meetup>, subscriptions: set<Subscription>)
      ensures Model() == State(meetups, subscriptions)
      ensures mails == []
    {
      this.meetups := meetups;
      this.subscriptions := subscriptions;
      mails := [];
    }

    /** The ids of the meetups the user is subscribed to, each once, in an
        order the database chooses. */
    method SubscribedMeetupIds(u: UserId) returns (ids: seq<MeetupId>)
      ensures forall i :: 0 <= i < |ids| ==> ids[i] in meetups && Subscription(u, ids[i]) in subscriptions
      ensures forall m :: m in meetups && Subscription(u, m) in subscriptions ==> m in ids
      ensures forall i, j :: 0 <= i < j < |ids| ==> ids[i] != ids[j]
    {
      var rest := HeldIds(Model(), u);
      ids := [];
      while rest != {}
        invariant rest <= HeldIds(Model(), u)
        invariant forall i :: 0 <= i < |ids| ==> ids[i] in meetups && Subscription(u, ids[i]) in subscriptions
        invariant forall m :: m in HeldIds(Model(), u) ==> m in rest || m in ids
        invariant forall i :: 0 <= i < |ids| ==> ids[i] !in rest
        invariant forall i, j :: 0 <= i < j < |ids| ==> ids[i] != ids[j]
        decreases rest
      {
        var m :| m in rest;
        ids := ids + [m];
        rest := rest - {m};
      }
    }

    /** `index`: the user's meetups with their selected attributes, each once,
        flagged available exactly when they lie strictly after `now`. */
    method Index(u: UserId, now: Instant) returns (listed: seq<Listed>)
      ensures forall m :: m in HeldIds(Model(), u) <==> exists i :: 0 <= i < |listed| && listed[i].row.id == m
      ensures forall i, j :: 0 <= i < j < |listed| ==> listed[i].row.id != listed[j].row.id
      ensures forall i :: 0 <= i < |listed| ==>
        listed[i].row.id in meetups &&
        listed[i].row == Row(listed[i].row.id, meetups[listed[i].row.id]) &&
        (listed[i].available <==> meetups[listed[i].row.id].date > now)
    {
      var ids := SubscribedMeetupIds(u);
      var table := meetups;
      var rows := seq(|ids|, i requires 0 <= i < |ids| => Row(ids[i], table[ids[i]]));
      listed := Annotate(rows, now);
      assert forall i :: 0 <= i < |listed| ==> listed[i].row.id == ids[i];
      forall m | m in HeldIds(Model(), u)
        ensures exists i :: 0 <= i < |listed| && listed[i].row.id == m
      {
        var i :| 0 <= i < |ids| && ids[i] == m;
        assert listed[i].row.id == m;
      }
    }

    /** The search of `update` for a held meetup on the same day and in the
        same hour as `date`. */
    method HasConflictingSubscription(u: UserId, date: Instant) returns (conflict: bool)
      ensures conflict <==> HasSlotConflict(Model(), u, date)
    {
      var ids := SubscribedMeetupIds(u);
      var table := meetups;
      var held := seq(|ids|, i requires 0 <= i < |ids| => table[ids[i]]);
      var found := FindSameDateHour(held, date);
      conflict := found.Some?;
      if conflict {
        var i :| FirstSameDateHourAt(held, date, i) && held[i] == found.value;
        assert ids[i] in meetups && Subscription(u, ids[i]) in subscriptions;
        assert SameDateHour(meetups[ids[i]].date, date);
      } else {
        forall m | m in meetups && Subscription(u, m) in subscriptions
          ensures !SameDateHour(meetups[m].date, date)
        {
          var i :| 0 <= i < |ids| && ids[i] == m;
          assert held[i] == meetups[m];
        }
      }
    }

    /** `update` (subscribe): the checks in their order, each returning early;
        only when all pass is the pair inserted and the provider notified. */
    method Update(u: UserId, mid: MeetupId, now: Instant) returns (r: Outcome)
      modifies this
      ensures Step(r, Model()) == Subscribe(old(Model()), u, mid, now)
      ensures mails == if r.Ok? then old(mails) + [Notification(r.meetup.providerId, r.meetup.title, u)] else old(mails)
    {
      if mid !in meetups {
        return NotFound;
      }
      var meetup := meetups[mid];
      if meetup.providerId == u {
        return Forbidden;
      }
      var hourStart := StartOfHour(meetup.date);
      if IsAfter(hourStart, now) {
        return AlreadyHappened;
      }
      var conflict := HasConflictingSubscription(u, meetup.date);
      if conflict {
        return SameHourConflict;
      }
      subscriptions := subscriptions + {Subscription(u, mid)};
      mails := mails + [Notification(meetup.providerId, meetup.title, u)];
      r := Ok(meetup);
    }

    /** `delete` (unsubscribe): existence and provider checks, then removal of
        the pair, present or not. */
    method Delete(u: UserId, mid: MeetupId) returns (r: Outcome)
      modifies this
      ensures Step(r, Model()) == Unsubscribe(old(Model()), u, mid)
      ensures mails == old(mails)
    {
      if mid !in meetups {
        return NotFound;
      }
      var meetup := meetups[mid];
      if meetup.providerId == u {
        return Forbidden;
      }
      subscriptions := subscriptions - {Subscription(u, mid)};
      r := Ok(meetup);
    }
  }
}
