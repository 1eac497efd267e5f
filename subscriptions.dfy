/** The subscription workflow as values: the meetup table, the `users-meetups`
    relation, the listing, the conflict search, and the subscribe and
    unsubscribe transitions with the order in which their checks run. */
module Subscriptions {
  import opened Time

  type UserId = int
  type MeetupId = int

  datatype Option<T> = None | Some(value: T)

  /** A row of the `meetups` table; the key of the table is the meetup's id. */
  datatype Meetup = Meetup(
    title: string,
    description: string,
    localization: string,
    date: Instant,
    banner: string,
    providerId: UserId)

  /** A row of the `users-meetups` join table. */
  datatype Subscription = Subscription(user: UserId, meetup: MeetupId)

  /** What the workflow reads and writes in the database. */
  datatype State = State(meetups: map<MeetupId, Meetup>, subscriptions: set<Subscription>)

  /** How a subscribe or unsubscribe request ends. */
  datatype Outcome =
    | NotFound          // 404
    | Forbidden         // 401: the provider acting on their own meetup
    | AlreadyHappened   // 400: the hour-start check
    | SameHourConflict  // 400: a held meetup on the same day and hour
    | Ok(meetup: Meetup)

  datatype Step = Step(outcome: Outcome, next: State)

  /** The attributes the listing selects from a meetup. */
  datatype MeetupRow = MeetupRow(
    id: MeetupId,
    title: string,
    description: string,
    localization: string,
    date: Instant)

  /** A listing entry: the selected attributes plus the `available` flag. */
  datatype Listed = Listed(row: MeetupRow, available: bool)

  /** The HTTP status each outcome is answered with. */
  function StatusCode(o: Outcome): (code: int)
    ensures code == 200 <==> o.Ok?
    ensures code == 400 <==> o.AlreadyHappened? || o.SameHourConflict?
    ensures code == 401 <==> o.Forbidden?
    ensures code == 404 <==> o.NotFound?
  {
    match o
    case NotFound => 404
    case Forbidden => 401
    case AlreadyHappened => 400
    case SameHourConflict => 400
    case Ok(_) => 200
  }

  /** The listing's view of a meetup: its id and the four selected attributes,
      unchanged; the banner and the provider are not selected. */
  function Row(id: MeetupId, m: Meetup): (row: MeetupRow)
    ensures row.id == id && row.date == m.date
    ensures row.title == m.title && row.description == m.description && row.localization == m.localization
  {
    MeetupRow(id, m.title, m.description, m.localization, m.date)
  }

  /** The meetups a user is subscribed to: the pairs of the join table whose
      meetup exists (an inner join). */
  function HeldIds(s: State, u: UserId): (ids: set<MeetupId>)
    ensures forall m :: m in ids <==> m in s.meetups && Subscription(u, m) in s.subscriptions
  {
    set p | p in s.subscriptions && p.user == u && p.meetup in s.meetups :: p.meetup
  }

  /** The `map` that adds `available` to each listed meetup, keeping its fields. */
  function Annotate(rows: seq<MeetupRow>, now: Instant): (listed: seq<Listed>)
    ensures |listed| == |rows|
    ensures forall i :: 0 <= i < |rows| ==> listed[i].row == rows[i]
    ensures forall i :: 0 <= i < |rows| ==> (listed[i].available <==> rows[i].date > now)
  {
    if rows == [] then []
    else [Listed(rows[0], IsAfter(rows[0].date, now))] + Annotate(rows[1..], now)
  }

  /** Position `i` holds the first meetup of `held` on the same day and in the
      same hour as `date`. */
  predicate FirstSameDateHourAt(held: seq<Meetup>, date: Instant, i: int)
  {
    0 <= i < |held| && SameDateHour(held[i].date, date) &&
    forall j :: 0 <= j < i ==> !SameDateHour(held[j].date, date)
  }

  /** The `find` over the user's meetups: the first one on the same day and in
      the same hour as `date`, if any. */
  function FindSameDateHour(held: seq<Meetup>, date: Instant): (found: Option<Meetup>)
    ensures found.None? <==> forall i :: 0 <= i < |held| ==> !SameDateHour(held[i].date, date)
    ensures found.Some? ==> exists i :: FirstSameDateHourAt(held, date, i) && held[i] == found.value
  {
    if held == [] then None
    else if SameDateHour(held[0].date, date) then
      assert FirstSameDateHourAt(held, date, 0);
      Some(held[0])
    else
      var found := FindSameDateHour(held[1..], date);
      assert found.Some? ==> exists i :: FirstSameDateHourAt(held, date, i) && held[i] == found.value by {
        if found.Some? {
          var k :| FirstSameDateHourAt(held[1..], date, k) && held[1..][k] == found.value;
          assert FirstSameDateHourAt(held, date, k + 1);
        }
      }
      found
  }

  /** The user already holds a meetup on the same day and in the same hour as `date`. */
  predicate HasSlotConflict(s: State, u: UserId, date: Instant): (conflict: bool)
    ensures conflict <==> exists m :: m in HeldIds(s, u) && IsSameHour(s.meetups[m].date, date)
  {
    exists m :: m in s.meetups && Subscription(u, m) in s.subscriptions && SameDateHour(s.meetups[m].date, date)
  }

  /** A held meetup conflicts with itself. */
  lemma HeldMeetupConflicts(s: State, u: UserId, mid: MeetupId)
    requires mid in s.meetups && Subscription(u, mid) in s.subscriptions
    ensures HasSlotConflict(s, u, s.meetups[mid].date)
  {
    assert SameDateHour(s.meetups[mid].date, s.meetups[mid].date);
  }

  /** Subscribe: the four checks run in order and the first that fails decides
      the outcome; only when all pass is the pair added. */
  function Subscribe(s: State, u: UserId, mid: MeetupId, now: Instant): (r: Step)
    ensures r.outcome == NotFound <==> mid !in s.meetups
    ensures r.outcome == Forbidden <==> mid in s.meetups && s.meetups[mid].providerId == u
    ensures r.outcome == AlreadyHappened <==>
      mid in s.meetups && s.meetups[mid].providerId != u && StartOfHour(s.meetups[mid].date) > now
    ensures r.outcome == SameHourConflict <==>
      mid in s.meetups && s.meetups[mid].providerId != u && StartOfHour(s.meetups[mid].date) <= now &&
      HasSlotConflict(s, u, s.meetups[mid].date)
    ensures !r.outcome.Ok? ==> r.next == s
    ensures r.outcome.Ok? ==>
      mid in s.meetups && r.outcome.meetup == s.meetups[mid] &&
      Subscription(u, mid) !in s.subscriptions &&
      r.next == s.(subscriptions := s.subscriptions + {Subscription(u, mid)})
  {
    if mid !in s.meetups then Step(NotFound, s)
    else
      var meetup := s.meetups[mid];
      if meetup.providerId == u then Step(Forbidden, s)
      else if IsAfter(StartOfHour(meetup.date), now) then Step(AlreadyHappened, s)
      else if HasSlotConflict(s, u, meetup.date) then Step(SameHourConflict, s)
      else
        assert Subscription(u, mid) !in s.subscriptions by {
          if Subscription(u, mid) in s.subscriptions { HeldMeetupConflicts(s, u, mid); }
        }
        Step(Ok(meetup), s.(subscriptions := s.subscriptions + {Subscription(u, mid)}))
  }

  /** Unsubscribe: existence and provider checks only, then the pair is removed
      whether or not it was there. */
  function Unsubscribe(s: State, u: UserId, mid: MeetupId): (r: Step)
    ensures r.outcome == NotFound <==> mid !in s.meetups
    ensures r.outcome == Forbidden <==> mid in s.meetups && s.meetups[mid].providerId == u
    ensures r.outcome.Ok? <==> mid in s.meetups && s.meetups[mid].providerId != u
    ensures !r.outcome.Ok? ==> r.next == s
    ensures r.outcome.Ok? ==>
      r.outcome.meetup == s.meetups[mid] &&
      r.next == s.(subscriptions := s.subscriptions - {Subscription(u, mid)})
  {
    if mid !in s.meetups then Step(NotFound, s)
    else if s.meetups[mid].providerId == u then Step(Forbidden, s)
    else Step(Ok(s.meetups[mid]), s.(subscriptions := s.subscriptions - {Subscription(u, mid)}))
  }

  /** The business rule the conflict check enforces: no user holds two
      meetups on the same day and in the same hour. */
  ghost predicate NoDoubleBooking(s: State): (ok: bool)
    ensures s.subscriptions == {} ==> ok
    ensures ok <==> forall u, a, b ::
      a in HeldIds(s, u) && b in HeldIds(s, u) && a != b ==> !IsSameHour(s.meetups[a].date, s.meetups[b].date)
  {
    var ok := forall u, a, b ::
      Subscription(u, a) in s.subscriptions && Subscription(u, b) in s.subscriptions &&
      a in s.meetups && b in s.meetups && a != b ==>
      !SameDateHour(s.meetups[a].date, s.meetups[b].date);
    assert ok ==> forall u, a, b ::
      a in HeldIds(s, u) && b in HeldIds(s, u) && a != b ==> !IsSameHour(s.meetups[a].date, s.meetups[b].date) by {
      if ok {
        forall u, a, b | a in HeldIds(s, u) && b in HeldIds(s, u) && a != b
          ensures !IsSameHour(s.meetups[a].date, s.meetups[b].date)
        {
          assert !SameDateHour(s.meetups[a].date, s.meetups[b].date);
        }
      }
    }
    assert !ok ==> exists u, a, b ::
      a in HeldIds(s, u) && b in HeldIds(s, u) && a != b && IsSameHour(s.meetups[a].date, s.meetups[b].date) by {
      if !ok {
        var u, a, b :| Subscription(u, a) in s.subscriptions && Subscription(u, b) in s.subscriptions &&
          a in s.meetups && b in s.meetups && a != b && SameDateHour(s.meetups[a].date, s.meetups[b].date);
        assert a in HeldIds(s, u) && b in HeldIds(s, u);
      }
    }
    ok
  }

  lemma SubscribePreservesNoDoubleBooking(s: State, u: UserId, mid: MeetupId, now: Instant)
    requires NoDoubleBooking(s)
    ensures NoDoubleBooking(Subscribe(s, u, mid, now).next)
  {
    var r := Subscribe(s, u, mid, now);
    if r.outcome.Ok? {
      var t := r.next;
      forall v, a, b |
        Subscription(v, a) in t.subscriptions && Subscription(v, b) in t.subscriptions &&
        a in t.meetups && b in t.meetups && a != b
        ensures !SameDateHour(t.meetups[a].date, t.meetups[b].date)
      {
        if Subscription(v, a) == Subscription(u, mid) {
          assert Subscription(v, b) in s.subscriptions;
          assert !SameDateHour(s.meetups[b].date, s.meetups[mid].date);
        } else if Subscription(v, b) == Subscription(u, mid) {
          assert Subscription(v, a) in s.subscriptions;
          assert !SameDateHour(s.meetups[a].date, s.meetups[mid].date);
        }
      }
    }
  }

  lemma UnsubscribePreservesNoDoubleBooking(s: State, u: UserId, mid: MeetupId)
    requires NoDoubleBooking(s)
    ensures NoDoubleBooking(Unsubscribe(s, u, mid).next)
  {
  }

  /** After a successful subscribe the meetup is among the user's, the user's
      other meetups are the same, and every other user's are unchanged. */
  lemma SubscribedIsHeld(s: State, u: UserId, mid: MeetupId, now: Instant)
    requires Subscribe(s, u, mid, now).outcome.Ok?
    ensures HeldIds(Subscribe(s, u, mid, now).next, u) == HeldIds(s, u) + {mid}
    ensures mid !in HeldIds(s, u)
    ensures forall v :: v != u ==> HeldIds(Subscribe(s, u, mid, now).next, v) == HeldIds(s, v)
  {
  }

  /** Subscribing again to a meetup one already holds is refused as a
      same-hour conflict: the meetup matches itself. */
  lemma ResubscribeConflicts(s: State, u: UserId, mid: MeetupId, now: Instant, later: Instant)
    requires Subscribe(s, u, mid, now).outcome.Ok?
    requires later >= now
    ensures Subscribe(Subscribe(s, u, mid, now).next, u, mid, later).outcome == SameHourConflict
  {
    var t := Subscribe(s, u, mid, now).next;
    HeldMeetupConflicts(t, u, mid);
  }

  /** Once subscribed to one meetup, a subscribe to another one on the same day
      and hour that passes the earlier checks fails with the conflict. */
  lemma SameSlotSecondSubscribeConflicts(s: State, u: UserId, m1: MeetupId, m2: MeetupId, now: Instant, later: Instant)
    requires Subscribe(s, u, m1, now).outcome.Ok?
    requires m2 in s.meetups && s.meetups[m2].providerId != u
    requires !IsAfter(StartOfHour(s.meetups[m2].date), later)
    requires IsSameHour(s.meetups[m1].date, s.meetups[m2].date)
    ensures Subscribe(Subscribe(s, u, m1, now).next, u, m2, later).outcome == SameHourConflict
  {
    var t := Subscribe(s, u, m1, now).next;
    assert Subscription(u, m1) in t.subscriptions;
  }

  /** As the comparison is written, the hour-start check refuses only meetups
      that lie in the future, and accepts any meetup whose hour has begun,
      including those long past. */
  lemma AlreadyHappenedOnlyForFuture(s: State, u: UserId, mid: MeetupId, now: Instant)
    requires mid in s.meetups
    ensures Subscribe(s, u, mid, now).outcome == AlreadyHappened ==> s.meetups[mid].date > now
    ensures Subscribe(s, u, mid, now).outcome == AlreadyHappened <==>
      s.meetups[mid].providerId != u && HourIndex(s.meetups[mid].date) > HourIndex(now)
  {
    StartOfHourNotAfter(s.meetups[mid].date, now);
  }

  /** Unsubscribing twice is the same as unsubscribing once. */
  lemma UnsubscribeIdempotent(s: State, u: UserId, mid: MeetupId)
    ensures Unsubscribe(Unsubscribe(s, u, mid).next, u, mid) == Unsubscribe(s, u, mid)
  {
    var t := Unsubscribe(s, u, mid).next;
    if Unsubscribe(s, u, mid).outcome.Ok? {
      assert t.subscriptions - {Subscription(u, mid)} == t.subscriptions;
    }
  }

  /** Unsubscribing right after a successful subscribe restores the state. */
  lemma UnsubscribeUndoesSubscribe(s: State, u: UserId, mid: MeetupId, now: Instant)
    requires Subscribe(s, u, mid, now).outcome.Ok?
    ensures Unsubscribe(Subscribe(s, u, mid, now).next, u, mid) == Step(Ok(s.meetups[mid]), s)
  {
    var t := Subscribe(s, u, mid, now).next;
    assert t.subscriptions - {Subscription(u, mid)} == s.subscriptions;
  }
}
