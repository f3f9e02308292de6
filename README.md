# Votable moderation engine, modelled in Dafny

This project models the core of the stamp.community moderation engine. A
*votable* (a "stamp") collects weighted up and down votes on a *stampable*
item. It is then concluded and moves through a small lifecycle. The model
covers these parts:

- **Tally** (`tally.dfy`). `MajoritySize` is the larger side's share of the
  total power, as a percentage rounded half up. It is computed in integers as
  `(200 * max + total) / (2 * total)`. `MajorityTypeOf` gives `upvoters`,
  `downvoters` or `even`. `Concludable` holds when the power gate and the
  majority gate both hold, each inclusively.
- **Lifecycle** (`lifecycle.dfy`). This is the transition table of the five
  states and four events. `Run` fires a sequence of events, and the lemmas
  about it cover every event sequence.
- **Votable** (`votable.dfy`). The `Votable` class has a mutable `state`.
  The notification and activity tables are a `Journal` object passed to each
  event. `Fire`, `Deny`, `Dispute` and `Archive` each append exactly one
  notification and one activity to it. `ArchiveAcceptedSiblings` archives
  every accepted sibling on the same stampable and appends one archive pair
  per sibling it archives. `Accept` appends those archive pairs and then its
  own accept pair. These methods may change only the `state` of the votables
  involved, so the vote powers of the siblings stay as they were.
  `Conclude` appends exactly one task to a `TaskQueue`.
- **User** (`user.dfy`). This covers voting power with its zero clamp, the
  `can_vote?` rule (daily limit and one vote per votable) and the nil-only
  initial reputation.

The behaviour of the votable concern is taken from its shared examples in
`spec/support/models/concerns/votable_spec.rb`. The concern's own source is
not part of this model. The thresholds, the daily voting limit and the
initial reputation are environment integers in the source. Here they are
parameters.

A notification's key is the key of the activity it points to,
`"<param_key>.<event>"`. The shared examples run with a stamp, whose
`param_key` is `"stamp"`, so the notification key reads `"stamp.<event>"`
there.

`Accept` archives the siblings first and then fires its own event, so the
accept notification is the last one recorded. This order is a modelling
choice. The accept example creates no sibling and stubs the archival, so it
records a single notification and leaves the order open. Run on siblings
that are already archived, `ArchiveAcceptedSiblings` records nothing
(`NoneAccepted`).

Events fired from a state the table does not allow are excluded by
preconditions. The state machine's guard raises in the source, and the
shared examples only exercise the allowed transitions.

## Model

| member | source | states |
|---|---|---|
| Tally.MajoritySize | spec/support/models/concerns/votable_spec.rb:230-264 | the result is the larger power's percentage of the total rounded half up: `r * total` lies within half a total of `100 * max`, the lower end excluded; 0 when no power was cast |
| Tally.MajoritySizeBounds | spec/support/models/concerns/votable_spec.rb:230-264 | with a positive total the majority size lies in [50, 100] |
| Tally.MajoritySizeSymmetric | spec/support/models/concerns/votable_spec.rb:238-254 | swapping up and down power does not change the majority size |
| Tally.EvenIsHalf | spec/support/models/concerns/votable_spec.rb:256-263 | an even split with some power cast has majority size exactly 50 |
| Tally.LargeMajorityIsNotEven | spec/support/models/concerns/votable_spec.rb:230-300 | a majority size above 50 implies the majority type is not `even` |
| Tally.MajorityExamples | spec/support/models/concerns/votable_spec.rb:230-300 | 140/60 gives 70, 40/60 gives 60 and 40/40 gives 50; 70/30 is upvoters, 10/90 downvoters, 50/50 even |
| Tally.MajorityTypeOf | spec/support/models/concerns/votable_spec.rb:266-300 | upvoters iff up > down, downvoters iff down > up, even iff up = down |
| Tally.Concludable | spec/support/models/concerns/votable_spec.rb:134-227 | a concludable tally has total power at least the power threshold and majority size at least the majority threshold; failing either gate makes it unconcludable |
| Tally.ConcludableMonotone | spec/support/models/concerns/votable_spec.rb:134-227 | raising the total power or the majority size never makes a concludable vote unconcludable |
| Tally.ConcludableExamples | spec/support/models/concerns/votable_spec.rb:145-227 | the nine threshold cases with thresholds 10 and 75: true exactly for total 10 or 20 with majority 75 or 80 |
| Tally.EvenNeverConcludes | spec/support/models/concerns/votable_spec.rb:317-343 | with a majority threshold above 50 a concludable tally is never even, so `conclude!` always has a side to dispatch on |
| Lifecycle.Transition | spec/support/models/concerns/votable_spec.rb:29-60 | an event fires iff it is accept, deny or dispute from in_progress, or archive from accepted; it leads to the event's target state, never back to in_progress |
| Lifecycle.NeverReopens | spec/support/models/concerns/votable_spec.rb:29-60 | no sequence of events brings a concluded votable back to in_progress |
| Lifecycle.RunIsShort | spec/support/models/concerns/votable_spec.rb:29-60 | any allowed event sequence has at most two events, at most one from a concluded state, and none from denied, disputed or archived |
| Lifecycle.AcceptThenArchive | spec/support/models/concerns/votable_spec.rb:29-60 | accept then archive leads from in_progress to archived; archive alone is refused from in_progress |
| Votables.WorkerFor | spec/support/models/concerns/votable_spec.rb:302-343 | DisputeWorker iff not concludable, AcceptWorker iff concludable with up > down, DenyWorker iff concludable with down > up |
| Votables.NoneAccepted | spec/support/models/concerns/votable_spec.rb:111-130 | with no accepted sibling there is nothing to archive, so a second archival records nothing |
| Votables.Votable.Fire | spec/support/models/concerns/votable_spec.rb:63-73 | the state becomes the transition's target; exactly one notification (to the creator, actor -1, unread, key `<param_key>.<event>`, referencing the votable) and exactly one activity (same key, owner System -1, trackable the votable, recipient the stampable) are appended |
| Votables.Votable.Deny | spec/support/models/concerns/votable_spec.rb:370-386 | in_progress to denied, one deny notification and one deny activity appended |
| Votables.Votable.Dispute | spec/support/models/concerns/votable_spec.rb:388-404 | in_progress to disputed, one dispute notification and one dispute activity appended |
| Votables.Votable.Archive | spec/support/models/concerns/votable_spec.rb:406-422 | accepted to archived, one archive notification and one archive activity appended |
| Votables.Votable.ArchiveIfAccepted | spec/support/models/concerns/votable_spec.rb:111-130 | one sibling in the archival loop: an accepted votable becomes archived with one archive pair appended; any other keeps its state and nothing is appended |
| Votables.Votable.ArchiveAcceptedSiblings | spec/support/models/concerns/votable_spec.rb:111-130 | every accepted sibling becomes archived and every other sibling keeps its state; one archive notification and activity per formerly accepted sibling, in order; no other sibling field, such as the vote powers, may change |
| Votables.Votable.Accept | spec/support/models/concerns/votable_spec.rb:76-88 | in_progress to accepted after archiving the accepted siblings; afterwards this is the only accepted votable on its stampable, and "at most one accepted votable per stampable" is preserved; the records are the siblings' archive pairs followed by one accept pair; only the `state` of this votable and its siblings may change |
| Votables.Votable.Conclude | spec/support/models/concerns/votable_spec.rb:302-343 | exactly one task is appended, for the worker `WorkerFor` picks, with the votable's class name and id; the votable's state is untouched |
| Users.VotingPower | app/models/user.rb:13-15 | 0 whenever reputation <= 0, otherwise `log10_power` of the reputation |
| Users.TodayCount | app/models/user.rb:18 | the count of today's votes is at most the number of votes, and 0 iff none is from today |
| Users.CanVote | app/models/user.rb:17-19 | allowed exactly when today's votes are under the daily limit and no vote on the votable exists; refused when either check fails |
| Users.VotedVotableRefused | app/models/user.rb:17-19 | once a vote on a votable has been cast, voting on it again is refused, whatever the count of today's votes |
| Users.LastVoteOfDay | app/models/user.rb:17-19 | the vote that brings today's count up to the daily limit leaves the user unable to vote on any votable |
| Users.AllowedVotesAreDistinct | app/models/user.rb:17-19 | votes cast only while `can_vote?` held are on pairwise distinct votables |
| Users.AllowedVotesWithinLimit | app/models/user.rb:17-22 | votes cast only while `can_vote?` held number at most the daily limit today |
| Users.User.AddReputation | app/models/user.rb:25-27 | a nil reputation becomes the initial reputation; an existing reputation is left unchanged |

## Left out

- Upvote, downvote and total power: the concern that sums them from the votes is not part of this model. The shared examples stub them, so the model takes the two powers as natural numbers and the total as their sum.
- Tally.MajoritySize: the source's floating-point division and `round` are modelled as exact rational rounding, half up. Where the exact percentage ends in .5, the floating-point result can land just below it and round down, at any size of power, depending on the order of the source's operations. For example, 23 up and 17 down give 57.49999999999999 in doubles, which rounds to 57, while the model gives 58; 46/34 and 113/87 behave the same way. The source's result with no power cast is not visible; the model returns 0.
- Votables.Votable.Conclude: a concludable even tally has no asserted outcome and is excluded by a precondition. `EvenNeverConcludes` shows that the case cannot arise when the majority threshold is above 50.
- Events fired from a disallowed state: the shared examples do not assert an error result, so these cases are excluded by preconditions.
- Atomicity of transitions, and compare-and-swap under concurrent events, are not modelled. Each method runs alone.
- Time-based conclusion (`STAMP_CONCLUDE_IN_HOURS`) is stubbed but never exercised, so it is not modelled.
- Sidekiq execution and the workers' internals are not modelled. Only the act of appending a task to a queue is.
- Persistence of notifications and activities, and PublicActivity's ambient tracking switch, are not modelled. The records are appended to in-memory sequences.
- Associations, database indexes and the presence validation of `state` are schema, not behaviour. A `State` value always exists.
- `Integer#log10_power` is foreign code, so it is a function parameter of `VotingPower`.
- Users.TodayCount: whether a vote is from today is a stored flag on each vote. The clock is not modelled.
- `User#top_labels`, Devise authentication and all of `app/models/label.rb` are query plumbing and are not part of this model.
- The environment lookups of the thresholds, the daily voting limit and the initial reputation are not modelled. These values are parameters.
