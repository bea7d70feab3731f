/** The walk one message takes: the legal moves of a row, its retry budget, and the measure that bounds the walk
    (services/memory/intake.py:124-313). */
module Lifecycle {
  import opened Prelude
  import opened Tables

  const SWEEP_REASON := "deadline exceeded (swept: no worker reported an outcome)"
  const ORPHAN_ABANDON_REASON :=
    "abandoned in restart recovery (caught mid-work, retry budget spent, no attempt completed)"

  // ----- what each guarded UPDATE sets, the guard apart

  function Claimed(m: Message, now: real): Message {
    m.(status := Working, attempts := m.attempts + 1, updatedAt := now)
  }

  function AnsweredWith(m: Message, answer: string, now: real): Message {
    m.(status := Answered, answer := Some(answer), updatedAt := now)
  }

  function FailedWith(m: Message, reason: string, now: real): Message {
    m.(status := Failed, reason := Some(reason), updatedAt := now)
  }

  function Requeued(m: Message, now: real): Message {
    m.(status := Received, reason := None, updatedAt := now)
  }

  function GivenUp(m: Message, now: real): Message {
    m.(status := Abandoned, updatedAt := now)
  }

  function Recovered(m: Message, now: real): Message {
    m.(status := Received, updatedAt := now)
  }

  function Orphaned(m: Message, now: real): Message {
    m.(status := Abandoned, reason := Some(ORPHAN_ABANDON_REASON), updatedAt := now)
  }

  function Shown(m: Message, now: real): Message {
    m.(deliveredAt := Some(now))
  }

  predicate Overdue(m: Message, ceiling: real, now: real) {
    m.status == Working && m.updatedAt < now - ceiling
  }

  predicate Undelivered(m: Message) {
    m.deliveredAt.None? && m.status in {Answered, Abandoned}
  }

  /** A row as it is first recorded. */
  function Fresh(text: string, symbiot: Option<int>, now: real): Message {
    Message(text, symbiot, Received, None, None, 0, now, now, None)
  }

  // ----- the legal moves of a row, under a retry budget

  ghost predicate LegalMove(m: Message, m': Message, max: int) {
    match (m.status, m'.status)
    case (Received, Working) => m' == Claimed(m, m'.updatedAt)
    case (Working, Answered) => m'.answer.Some? && m' == AnsweredWith(m, m'.answer.value, m'.updatedAt)
    case (Working, Failed) => m'.reason.Some? && m' == FailedWith(m, m'.reason.value, m'.updatedAt)
    case (Failed, Received) => m.attempts < max && m' == Requeued(m, m'.updatedAt)
    case (Failed, Abandoned) => m.attempts >= max && m' == GivenUp(m, m'.updatedAt)
    case (Working, Received) => m.attempts < max && m' == Recovered(m, m'.updatedAt)
    case (Working, Abandoned) => m.attempts >= max && m' == Orphaned(m, m'.updatedAt)
    case _ => m' == m || (Undelivered(m) && m'.deliveredAt.Some? && m' == Shown(m, m'.deliveredAt.value))
  }

  /** The tries a message may have: at least the first, whatever the configured maximum. */
  function Budget(max: int): nat {
    if max < 1 then 1 else max
  }

  /** What every row keeps to. */
  ghost predicate RowOk(m: Message, max: int) {
    && m.attempts <= Budget(max)
    && (m.status == Received ==> m.attempts < Budget(max))
    && (m.status != Received ==> m.attempts >= 1)
    && (m.status == Abandoned ==> m.attempts == Budget(max))
    && (m.status == Answered <==> m.answer.Some?)
    && (m.status in {Failed, Abandoned} <==> m.reason.Some?)
    && (m.deliveredAt.Some? ==> Terminal(m))
  }

  /** How many status moves a row can still make: three for every try left, and the rest of the try it is in. */
  function Measure(m: Message, max: int): int {
    3 * (Budget(max) - m.attempts)
    + match m.status
      case Received => 0
      case Failed => 1
      case Working => 2
      case Answered => 0
      case Abandoned => 0
  }

  lemma FreshOk(text: string, symbiot: Option<int>, now: real, max: int)
    ensures RowOk(Fresh(text, symbiot, now), max)
    ensures Measure(Fresh(text, symbiot, now), max) == 3 * Budget(max)
  {
  }

  lemma MoveKeepsRow(m: Message, m': Message, max: int)
    requires RowOk(m, max) && LegalMove(m, m', max)
    ensures RowOk(m', max)
  {
  }

  /** Every status move spends some of the measure, and nothing adds to it. */
  lemma MoveSpends(m: Message, m': Message, max: int)
    requires RowOk(m, max) && LegalMove(m, m', max)
    ensures 0 <= Measure(m', max) <= Measure(m, max)
    ensures m'.status != m.status ==> Measure(m', max) < Measure(m, max)
  {
  }

  /** The words and the sender never change; an outcome, once reached, is for good, and so is an answer. */
  lemma MoveKeepsWords(m: Message, m': Message, max: int)
    requires RowOk(m, max) && LegalMove(m, m', max)
    ensures m'.text == m.text && m'.symbiot == m.symbiot && m'.createdAt == m.createdAt
    ensures Terminal(m) ==> m'.status == m.status && m'.answer == m.answer && m'.reason == m.reason
    ensures m.answer.Some? ==> m'.answer == m.answer
    ensures m.deliveredAt.Some? ==> m'.deliveredAt == m.deliveredAt
    ensures m'.attempts >= m.attempts
  {
  }

  /** Every status move stamps its own instant, a delivery another, and neither touches the other's or when the message
      came. */
  lemma MovesAreStamped(m: Message, m': Message, max: int)
    requires RowOk(m, max) && LegalMove(m, m', max)
    ensures m'.createdAt == m.createdAt
    ensures m'.updatedAt != m.updatedAt ==> m'.status != m.status
    ensures m'.deliveredAt != m.deliveredAt ==>
              && m' == m.(deliveredAt := m'.deliveredAt)
              && m.deliveredAt == None && (m.status == Answered || m.status == Abandoned)
  {
  }

  lemma StampOfTheMove(m: Message, words: string, now: real)
    ensures Claimed(m, now).updatedAt == AnsweredWith(m, words, now).updatedAt == FailedWith(m, words, now).updatedAt
            == Requeued(m, now).updatedAt == GivenUp(m, now).updatedAt == Recovered(m, now).updatedAt
            == Orphaned(m, now).updatedAt == now
    ensures Shown(m, now).deliveredAt == Some(now) && Shown(m, now).updatedAt == m.updatedAt
    ensures AnsweredWith(m, words, now).answer == Some(words) && FailedWith(m, words, now).reason == Some(words)
  {
  }

  /** Every failed row is taken by exactly one of the two sweeps, and a terminal one by neither. */
  lemma SweepsSplit(m: Message, max: int, now: real)
    requires RowOk(m, max)
    ensures m.status == Failed ==> (LegalMove(m, Requeued(m, now), max) <==> !LegalMove(m, GivenUp(m, now), max))
    ensures Terminal(m) ==> !LegalMove(m, Requeued(m, now), max)
  {
  }

  // ----- the whole table

  /** Every row is there after as before, moved legally or not at all; new rows are fresh ones. */
  ghost predicate Walks(before: Intake, after: Intake, max: int) {
    && before.Keys <= after.Keys
    && (forall m {:trigger Walked(before, after, max, m)} :: m in before ==> Walked(before, after, max, m))
    && (forall m {:trigger Recorded(after, m)} :: m in after && m !in before ==> Recorded(after, m))
  }

  ghost predicate Walked(before: Intake, after: Intake, max: int, m: int)
    requires m in before
  {
    m in after && LegalMove(before[m], after[m], max)
  }

  ghost predicate Recorded(after: Intake, m: int)
    requires m in after
  {
    after[m] == Fresh(after[m].text, after[m].symbiot, after[m].createdAt)
  }

  ghost predicate RowsOk(intake: Intake, max: int) {
    forall m {:trigger RowOkAt(intake, max, m)} :: m in intake ==> RowOkAt(intake, max, m)
  }

  ghost predicate RowOkAt(intake: Intake, max: int, m: int)
    requires m in intake
  {
    RowOk(intake[m], max)
  }

  lemma WalkKeepsRows(before: Intake, after: Intake, max: int)
    requires RowsOk(before, max) && Walks(before, after, max)
    ensures RowsOk(after, max)
  {
    forall m | m in after
      ensures RowOkAt(after, max, m)
    {
      if m in before {
        assert RowOkAt(before, max, m) && Walked(before, after, max, m);
        MoveKeepsRow(before[m], after[m], max);
      } else {
        assert Recorded(after, m);
      }
    }
  }

  lemma WalkStays(intake: Intake, max: int)
    ensures Walks(intake, intake, max)
  {
    forall m | m in intake
      ensures Walked(intake, intake, max, m)
    {
    }
  }

  /** One row moved. */
  lemma WalkOne(intake: Intake, max: int, m: int, row: Message)
    requires m in intake && LegalMove(intake[m], row, max)
    ensures Walks(intake, intake[m := row], max)
  {
    forall k | k in intake
      ensures Walked(intake, intake[m := row], max, k)
    {
    }
  }

  /** One row recorded. */
  lemma WalkRecord(intake: Intake, max: int, m: int, text: string, symbiot: Option<int>, now: real)
    requires m !in intake
    ensures Walks(intake, intake[m := Fresh(text, symbiot, now)], max)
  {
    forall k | k in intake
      ensures Walked(intake, intake[m := Fresh(text, symbiot, now)], max, k)
    {
    }
  }

  /** A bulk UPDATE: every row its guard names is moved, and no other. */
  function Updated(intake: Intake, guard: Message -> bool, move: Message -> Message): Intake {
    map m | m in intake :: if guard(intake[m]) then move(intake[m]) else intake[m]
  }
}
