# Meetup subscription workflow

A model of `SubscriptionController` in the meetapp backend. This controller handles three requests for an authenticated user:

- `index` lists the meetups the user is subscribed to. Each entry carries an `available` flag.
- `update` subscribes the user to a meetup.
- `delete` unsubscribes the user from a meetup.

The database state is a meetup table, `map<MeetupId, Meetup>`, and the `users-meetups` join relation, a set of `Subscription(user, meetup)` pairs. Instants are integer milliseconds in one fixed timezone. "Now" is a parameter.

- `time.dfy` (module `Time`) holds the date-fns helpers the controller uses: `startOfHour`, `isAfter`, `isSameDay` and `isSameHour`. Hours and days are numbered by Euclidean division.
- `subscriptions.dfy` (module `Subscriptions`) holds the pure part:
  - the record shapes;
  - the `map` that adds `available`;
  - the `find` for a meetup on the same day and hour;
  - the subscribe and unsubscribe transitions as functions on a `State`, with their checks in source order;
  - lemmas relating several calls: invariant preservation, round trip, idempotence, re-subscription.
- `controller.dfy` (module `Controller`) holds the class `SubscriptionController`. Its fields are the database and a log of mails handed to the mailer. `Update` and `Delete` run the early-return guards and then change the relation in place. Each is proved equal to the pure transition.

The hour-start check at line 71 is modelled as written. It refuses a meetup when the start of the meetup's hour is strictly after now. Its error message says the meetup "already happened", which suggests the opposite intent: refusing meetups whose hour has passed. The model follows the code, not the message. `AlreadyHappenedOnlyForFuture` and `Time.StartOfHourNotAfter` state what the comparison as written does in the model. There, subscribing is possible only to meetups whose hour has begun, however long ago, and every meetup in a later hour is refused. This rests on taking `parseISO` as the identity (see "## Left out"). In the program itself, the check probably never fires.

## Model

| member | source | states |
|---|---|---|
| Time.StartOfHour | src/app/controllers/SubscriptionController.js:69 | the hour start lies at or before the instant, less than one hour before it, and is the hour index times one hour |
| Time.IsAfter | src/app/controllers/SubscriptionController.js:71 | `isAfter`: strictly later, so equal instants are not after one another (the boundary the `available` flag at line 32 also uses), and a later instant never has an earlier hour start |
| Time.IsSameHour | src/app/controllers/SubscriptionController.js:93 | `isSameHour`: same hour index holds exactly when both instants have the same start of hour, which is how date-fns defines it |
| Time.IsSameDay | src/app/controllers/SubscriptionController.js:92 | `isSameDay`: same day index holds exactly when both instants have the same start of day |
| Time.DayOfHour | src/app/controllers/SubscriptionController.js:92-93 | the day index is the hour index divided by 24 |
| Time.SameDateHour | src/app/controllers/SubscriptionController.js:91-94 | the `find` callback, `isSameDay && isSameHour`, holds exactly when `isSameHour` does, so the day test adds nothing |
| Time.StartOfHourNotAfter | src/app/controllers/SubscriptionController.js:69-71 | the hour-start check passes exactly when the meetup's hour index is at most that of now, i.e. when the date is before the end of the current hour |
| Subscriptions.StatusCode | src/app/controllers/SubscriptionController.js:50-116 | 200 exactly for success, 404 for not found, 401 for the provider, and 400 for both the time check and the conflict |
| Subscriptions.Row | src/app/controllers/SubscriptionController.js:20 | the listing's view of a meetup keeps its id, title, description, localization and date unchanged |
| Subscriptions.HeldIds | src/app/controllers/SubscriptionController.js:78-86 | a meetup is among the user's exactly when it exists and the join relation pairs it with the user |
| Subscriptions.Annotate | src/app/controllers/SubscriptionController.js:29-34 | one entry per meetup, in order, with its fields unchanged, and `available` true exactly when the date is strictly after now (a meetup dated now is not available) |
| Subscriptions.FindSameDateHour | src/app/controllers/SubscriptionController.js:88-95 | nothing is found exactly when no held meetup is on the same day and hour; a result is the first such meetup in the sequence |
| Subscriptions.HasSlotConflict | src/app/controllers/SubscriptionController.js:88-97 | the truth test of `checkMeetupSameDateHour`: the user holds some existing meetup in the same hour as the date |
| Subscriptions.HeldMeetupConflicts | src/app/controllers/SubscriptionController.js:88-95 | a meetup the user holds is a same-hour conflict for itself |
| Subscriptions.Subscribe | src/app/controllers/SubscriptionController.js:37-103 | each outcome holds exactly when the earlier checks pass and its own check fails, in the order not found, provider, hour start, conflict; a failure leaves the state unchanged; success returns the meetup and adds exactly the new pair, which was not held before; the meetup table never changes |
| Subscriptions.Unsubscribe | src/app/controllers/SubscriptionController.js:119-138 | not found and forbidden exactly as for subscribe; success exactly when the meetup exists and the user is not its provider, with no time or conflict check; success returns the meetup and removes exactly the pair; a failure changes nothing |
| Subscriptions.NoDoubleBooking | src/app/controllers/SubscriptionController.js:77 | the rule stated at line 77: no user holds two distinct meetups in the same hour; the empty relation satisfies it |
| Subscriptions.SubscribePreservesNoDoubleBooking | src/app/controllers/SubscriptionController.js:77-103 | if no user holds two meetups on the same day and hour, that still holds after a subscribe |
| Subscriptions.UnsubscribePreservesNoDoubleBooking | src/app/controllers/SubscriptionController.js:136 | unsubscribing keeps the no-double-booking rule |
| Subscriptions.SubscribedIsHeld | src/app/controllers/SubscriptionController.js:103 | after a successful subscribe, the user's meetups are the old ones plus the new meetup, which was not among them; every other user's meetups are unchanged |
| Subscriptions.ResubscribeConflicts | src/app/controllers/SubscriptionController.js:88-101 | subscribing again to a meetup just subscribed to fails with the same-hour conflict |
| Subscriptions.SameSlotSecondSubscribeConflicts | src/app/controllers/SubscriptionController.js:88-101 | after subscribing to one meetup, a subscribe to another meetup in the same hour that passes the provider and time checks fails with the conflict |
| Subscriptions.AlreadyHappenedOnlyForFuture | src/app/controllers/SubscriptionController.js:66-75 | the time check refuses exactly when the user is not the provider and the meetup's hour is later than now's hour, so every refused meetup lies in the future |
| Subscriptions.UnsubscribeIdempotent | src/app/controllers/SubscriptionController.js:119-138 | unsubscribing twice gives the same outcome and state as unsubscribing once |
| Subscriptions.UnsubscribeUndoesSubscribe | src/app/controllers/SubscriptionController.js:103-136 | unsubscribing right after a successful subscribe returns the meetup and restores the original state |
| Controller.SubscriptionController.SubscribedMeetupIds | src/app/controllers/SubscriptionController.js:78-90 | the ids listed are exactly the user's existing subscribed meetups, each once |
| Controller.SubscriptionController.Index | src/app/controllers/SubscriptionController.js:13-35 | one entry per subscribed meetup and no other; each carries that meetup's selected fields unchanged and is available exactly when its date is strictly after now |
| Controller.SubscriptionController.HasConflictingSubscription | src/app/controllers/SubscriptionController.js:77-101 | the search reports a conflict exactly when the user holds a meetup on the same day and hour as the date |
| Controller.SubscriptionController.Update | src/app/controllers/SubscriptionController.js:37-117 | the outcome and the new database state are those of the subscribe transition; a mail to the provider is logged only after a successful insert, and on failure nothing is logged |
| Controller.SubscriptionController.Delete | src/app/controllers/SubscriptionController.js:119-139 | the outcome and the new database state are those of the unsubscribe transition; no mail is logged |

## Left out

- HTTP plumbing: requests map to method parameters. Responses map to `Outcome` constructors and `StatusCode`. The Portuguese error messages are not modelled.
- The ORM: `findByPk`, `include`, `toJSON`, `addUser` and `removeUser` become reads and writes of the controller's fields.
- Ordering: the `order: [['date', 'DESC']]` option of the listing is not promised. The ORM may not apply an order nested in an include, so `Index` returns the meetups in an unspecified order.
- Users: there is no users table. `userId` is taken as resolved by authentication. The crash when the user is missing (`null.toJSON()`) is not modelled. Neither is the crash when the meetup's provider is missing, or the provider's name and email.
- The mailer: `Mail.sendMail` is an asynchronous foreign call. It is modelled only as a `Notification` appended to a log after the insert, carrying provider id, meetup title and subscriber id. Mail failure propagating to the caller is not modelled.
- Time: date-fns calendar and timezone handling are replaced by integer milliseconds in one fixed zone with whole-hour days.
- `parseISO`: taken as the identity on instants. At line 69 it receives `meetup.date`, which comes from a `DATE` column and so is already a `Date`, not a string. date-fns 2.x returns an Invalid Date for a non-string argument. `isAfter` is then false, so the program's line-71 check would refuse nothing. The model's line-71 check refuses every meetup in a later hour. The model therefore does not capture that the program lets future meetups through this check.
- Clock reads: `new Date()` is a single `now` parameter per request. The source reads the clock again for each listed meetup.
- Concurrency: the race between the conflict check and `addUser` is not modelled. Requests are sequential.
- `src/app/models/Meetup.js` is used only for the record shape.
- `src/database/migrations/20190807010240-create-files.js` is a declarative schema with no behaviour.
