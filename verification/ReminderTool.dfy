/** The reminder table and the tools that write it (services/tools/reminder.py). */
module ReminderTool {
  import opened Prelude
  import opened Tables

  /** Why a tool could not act: the moment named has gone by, the reminder is not on record, or it had settled. */
  datatype Why = GoneBy | OffRecord | HasFired | CalledOff

  datatype ToolOutcome = Satisfied | Unclear | Unable(why: Why) | Acted

  /** The reminders, and beside them the refusals: which standing reminder a message was told it already had. */
  datatype Book = Book(reminders: Reminders, declines: map<int, int>)

  // ----- the guarded writes

  /** `WHERE id = r AND symbiot_id = s AND fired_at IS NULL AND cancelled_at IS NULL` */
  predicate Scoped(reminders: Reminders, symbiot: int, r: int) {
    r in reminders && reminders[r].symbiot == symbiot && LiveReminder(reminders[r])
  }

  function Cancelled(reminders: Reminders, symbiot: int, r: int, now: real): Reminders {
    if Scoped(reminders, symbiot, r) then reminders[r := reminders[r].(cancelledAt := Some(now))] else reminders
  }

  function Coalesce<T>(value: Option<T>, held: T): T {
    match value
    case Some(v) => v
    case None => held
  }

  function Edited(reminders: Reminders, symbiot: int, r: int, body: Option<string>, fireAt: Option<real>): Reminders {
    if (body.None? && fireAt.None?) || !Scoped(reminders, symbiot, r) then reminders
    else
      var row := reminders[r];
      reminders[r := row.(body := Coalesce(body, row.body), fireAt := Coalesce(fireAt, row.fireAt))]
  }

  /** `fired_at` set on the row by its id alone, with no guard. */
  function Stamped(reminders: Reminders, r: int, now: real): Reminders {
    if r in reminders then reminders[r := reminders[r].(firedAt := Some(now))] else reminders
  }

  ghost predicate HasReminder(reminders: Reminders, message: int) {
    exists r :: r in reminders && reminders[r].intake == Some(message)
  }

  /** `ON CONFLICT (intake_id) DO NOTHING`: a null never conflicts. */
  predicate Conflicts(reminders: Reminders, intake: Option<int>) {
    intake.Some? && exists r :: r in reminders && reminders[r].intake == intake
  }

  function Created(
    reminders: Reminders, r: int, symbiot: int, body: string, fireAt: real, intake: Option<int>): Reminders
    requires r !in reminders
  {
    if Conflicts(reminders, intake) then reminders
    else reminders[r := Reminder(intake, symbiot, body, fireAt, None, None)]
  }

  /** The first refusal for a message stands. */
  function Declined(declines: map<int, int>, message: int, r: int): map<int, int> {
    if message in declines then declines else declines[message := r]
  }

  predicate Due(row: Reminder, now: real) {
    LiveReminder(row) && row.fireAt <= now
  }

  // ----- the executors

  predicate StillHeld(reminders: Reminders, symbiot: int, meant: Option<int>) {
    meant.Some? && Scoped(reminders, symbiot, meant.value)
  }

  /** Set a reminder for a message.  `body` is the line with its surrounding white space gone, `meant` the standing
      reminder the judge named, and `r` the id the row would get. */
  function Schedule(
    book: Book, symbiot: int, message: int, r: int, meant: Option<int>, body: string, fireAt: Option<real>, now: real)
      : (Book, ToolOutcome)
    requires r !in book.reminders
  {
    if StillHeld(book.reminders, symbiot, meant) then
      (book.(declines := Declined(book.declines, message, meant.value)), Satisfied)
    else if body == "" || fireAt.None? then (book, Unclear)
    else if fireAt.value <= now then (book, Unable(GoneBy))
    else (book.(reminders := Created(book.reminders, r, symbiot, body, fireAt.value, Some(message))), Acted)
  }

  /** `WHERE id = r AND symbiot_id = s`, whatever state the row is in. */
  function Find(reminders: Reminders, symbiot: int, r: int): Option<Reminder> {
    if r in reminders && reminders[r].symbiot == symbiot then Some(reminders[r]) else None
  }

  /** How a refused write is explained, from the row as it was read before the write. */
  function Refused(held: Reminder): Why {
    if held.firedAt.Some? then HasFired else CalledOff
  }

  /** What a write over one row of the symbiot's comes to: not found, refused, or landed. */
  function Landed(reminders: Reminders, symbiot: int, r: int): ToolOutcome {
    match Find(reminders, symbiot, r)
    case None => Unable(OffRecord)
    case Some(held) => if Scoped(reminders, symbiot, r) then Acted else Unable(Refused(held))
  }

  function CallOff(book: Book, symbiot: int, meant: Option<int>, now: real): (Book, ToolOutcome) {
    if meant.None? then (book, Unclear)
    else
      (book.(reminders := Cancelled(book.reminders, symbiot, meant.value, now)),
       Landed(book.reminders, symbiot, meant.value))
  }

  function Change(
    book: Book, symbiot: int, meant: Option<int>, body: string, fireAt: Option<real>, now: real): (Book, ToolOutcome)
  {
    var said := if body == "" then None else Some(body);
    if meant.None? || (said.None? && fireAt.None?) then (book, Unclear)
    else if fireAt.Some? && fireAt.value <= now then (book, Unable(GoneBy))
    else
      (book.(reminders := Edited(book.reminders, symbiot, meant.value, said, fireAt)),
       Landed(book.reminders, symbiot, meant.value))
  }

  // ----- what every write keeps

  /** A row only moves while it is live, takes at most one of the two stamps, and keeps whose and what message's it
      is. */
  ghost predicate LegalStep(row: Reminder, row': Reminder) {
    && row'.intake == row.intake && row'.symbiot == row.symbiot
    && (row' == row
        || (LiveReminder(row) && row' == row.(body := row'.body, fireAt := row'.fireAt))
        || (LiveReminder(row) && row'.cancelledAt.Some? && row' == row.(cancelledAt := row'.cancelledAt))
        || (LiveReminder(row) && row'.firedAt.Some? && row' == row.(firedAt := row'.firedAt)))
  }

  ghost predicate Stepped(before: Reminders, after: Reminders, r: int)
    requires r in before
  {
    r in after && LegalStep(before[r], after[r])
  }

  ghost predicate Turns(before: Reminders, after: Reminders) {
    && before.Keys <= after.Keys
    && (forall r {:trigger Stepped(before, after, r)} :: r in before ==> Stepped(before, after, r))
    && (forall r :: r in after && r !in before ==> LiveReminder(after[r]))
  }

  /** One reminder for a message, never both stamps on one row, and always something to say. */
  ghost predicate BookOk(reminders: Reminders) {
    && (forall r, q :: r in reminders && q in reminders ==>
          reminders[r].intake.Some? && reminders[r].intake == reminders[q].intake ==> r == q)
    && (forall r :: r in reminders ==> reminders[r].firedAt.None? || reminders[r].cancelledAt.None?)
    && (forall r :: r in reminders ==> reminders[r].body != "")
  }

  lemma TurnsStay(reminders: Reminders)
    ensures Turns(reminders, reminders)
  {
    forall r | r in reminders
      ensures Stepped(reminders, reminders, r)
    {
    }
  }

  lemma TurnsOne(reminders: Reminders, r: int, row: Reminder)
    requires r in reminders && LegalStep(reminders[r], row)
    ensures Turns(reminders, reminders[r := row])
  {
    forall q | q in reminders
      ensures Stepped(reminders, reminders[r := row], q)
    {
    }
  }

  lemma TurnsCreated(
    reminders: Reminders, r: int, symbiot: int, body: string, fireAt: real, intake: Option<int>)
    requires r !in reminders
    ensures Turns(reminders, Created(reminders, r, symbiot, body, fireAt, intake))
  {
    TurnsStay(reminders);
    forall q | q in reminders
      ensures Stepped(reminders, Created(reminders, r, symbiot, body, fireAt, intake), q)
    {
    }
  }

  lemma CreatedKeepsBook(
    reminders: Reminders, r: int, symbiot: int, body: string, fireAt: real, intake: Option<int>)
    requires r !in reminders && BookOk(reminders) && body != ""
    ensures BookOk(Created(reminders, r, symbiot, body, fireAt, intake))
  {
  }

  lemma StepKeepsBook(reminders: Reminders, r: int, row: Reminder)
    requires r in reminders && LegalStep(reminders[r], row) && BookOk(reminders) && row.body != ""
    ensures BookOk(reminders[r := row])
  {
  }

  lemma CancelTurns(reminders: Reminders, symbiot: int, r: int, now: real)
    ensures Turns(reminders, Cancelled(reminders, symbiot, r, now))
    ensures BookOk(reminders) ==> BookOk(Cancelled(reminders, symbiot, r, now))
  {
    TurnsStay(reminders);
    if Scoped(reminders, symbiot, r) {
      TurnsOne(reminders, r, reminders[r].(cancelledAt := Some(now)));
    }
  }

  lemma EditTurns(reminders: Reminders, symbiot: int, r: int, body: Option<string>, fireAt: Option<real>)
    ensures Turns(reminders, Edited(reminders, symbiot, r, body, fireAt))
    ensures BookOk(reminders) && body != Some("") ==> BookOk(Edited(reminders, symbiot, r, body, fireAt))
  {
    TurnsStay(reminders);
    if Scoped(reminders, symbiot, r) {
      var row := reminders[r];
      var row' := row.(body := Coalesce(body, row.body), fireAt := Coalesce(fireAt, row.fireAt));
      TurnsOne(reminders, r, row');
      if BookOk(reminders) && body != Some("") { StepKeepsBook(reminders, r, row'); }
    }
  }

  /** Stamping a row by its id alone is a legal step exactly when the row is live: the guard is the caller's lock. */
  lemma StampNeedsLive(reminders: Reminders, r: int, now: real)
    requires BookOk(reminders) && r in reminders && reminders[r].firedAt.None?
    ensures BookOk(Stamped(reminders, r, now)) <==> LiveReminder(reminders[r])
    ensures LiveReminder(reminders[r]) ==> Turns(reminders, Stamped(reminders, r, now))
  {
    var row := reminders[r].(firedAt := Some(now));
    if LiveReminder(reminders[r]) {
      TurnsOne(reminders, r, row);
      StepKeepsBook(reminders, r, row);
    } else {
      assert Stamped(reminders, r, now)[r] == row;
    }
  }

  /** However a message's tool call turns out, and however often it is retried, the message has at most one reminder;
      only an ACTED outcome can have written it, and its words are in the store exactly when no earlier try of the same
      message had already set a different one. */
  lemma ScheduleOnce(
    book: Book, symbiot: int, message: int, r: int, meant: Option<int>, body: string, fireAt: Option<real>, now: real)
    requires r !in book.reminders && BookOk(book.reminders)
    ensures var (after, outcome) := Schedule(book, symbiot, message, r, meant, body, fireAt, now);
            && BookOk(after.reminders)
            && Turns(book.reminders, after.reminders)
            && (after.reminders != book.reminders ==> outcome == Acted && !HasReminder(book.reminders, message))
            && (outcome == Acted ==> HasReminder(after.reminders, message))
            && (outcome == Satisfied <==> StillHeld(book.reminders, symbiot, meant))
            && (outcome == Satisfied ==> message in after.declines)
            && (outcome != Satisfied ==> after.declines == book.declines)
  {
    TurnsStay(book.reminders);
    if fireAt.Some? && body != "" {
      TurnsCreated(book.reminders, r, symbiot, body, fireAt.value, Some(message));
      CreatedKeepsBook(book.reminders, r, symbiot, body, fireAt.value, Some(message));
      var after := Created(book.reminders, r, symbiot, body, fireAt.value, Some(message));
      if !Conflicts(book.reminders, Some(message)) {
        assert after[r].intake == Some(message);
      }
    }
  }

  /** When each outcome of setting a reminder comes about, and what it writes: a standing one is declined, and the first
      decline of a message stands; a missing line or moment is asked about, a moment gone by refused; anything else
      writes the row, unless the message has one already. */
  lemma ScheduleCases(
    book: Book, symbiot: int, message: int, r: int, meant: Option<int>, body: string, fireAt: Option<real>, now: real)
    requires r !in book.reminders
    ensures var (after, outcome) := Schedule(book, symbiot, message, r, meant, body, fireAt, now);
            && (outcome == Satisfied <==>
                  && meant.Some? && meant.value in book.reminders && book.reminders[meant.value].symbiot == symbiot
                  && book.reminders[meant.value].firedAt.None? && book.reminders[meant.value].cancelledAt.None?)
            && (outcome == Satisfied ==>
                  && after.reminders == book.reminders
                  && after.declines
                     == if message in book.declines then book.declines else book.declines[message := meant.value])
            && (outcome == Unclear <==> outcome != Satisfied && (body == "" || fireAt.None?))
            && (outcome == Unable(GoneBy) <==>
                  outcome != Satisfied && body != "" && fireAt.Some? && fireAt.value <= now)
            && (outcome == Acted <==> outcome != Satisfied && body != "" && fireAt.Some? && now < fireAt.value)
            && (outcome == Acted ==>
                  after == if exists q :: q in book.reminders && book.reminders[q].intake == Some(message) then book
                           else book.(reminders := book.reminders[r :=
                                        Reminder(Some(message), symbiot, body, fireAt.value, None, None)]))
            && (outcome in {Unclear, Unable(GoneBy)} ==> after == book)
  {
  }

  /** Whether the row an ACTED confirmation speaks of stands as it says: it is live, with these words and this
      moment. */
  predicate StandsAs(row: Reminder, body: string, fireAt: real) {
    LiveReminder(row) && row.body == body && row.fireAt == fireAt
  }

  /** What an ACTED confirmation says stands, if and only if whatever reminder an earlier try of the message left is
      still live and says the same. */
  lemma ActedHolds(
    book: Book, symbiot: int, message: int, r: int, meant: Option<int>, body: string, fireAt: Option<real>, now: real,
    held: int)
    requires r !in book.reminders && BookOk(book.reminders)
    requires Schedule(book, symbiot, message, r, meant, body, fireAt, now).1 == Acted
    requires var after := Schedule(book, symbiot, message, r, meant, body, fireAt, now).0.reminders;
             held in after && after[held].intake == Some(message)
    ensures var after := Schedule(book, symbiot, message, r, meant, body, fireAt, now).0.reminders;
            StandsAs(after[held], body, fireAt.value)
            <==> (held in book.reminders ==> StandsAs(book.reminders[held], body, fireAt.value))
  {
    ScheduleOnce(book, symbiot, message, r, meant, body, fireAt, now);
  }

  /** The witness: a first try sets the reminder, the symbiot calls it off, and the message's retry, reading the very
      same words and moment, is confirmed as scheduled while nothing is. */
  lemma CalledOffYetConfirmed(symbiot: int, message: int, r: int, again: int, body: string, at: real, now: real)
    requires body != "" && now < at && again != r
    ensures var (first, set_) := Schedule(Book(map[], map[]), symbiot, message, r, None, body, Some(at), now);
            var calledOff := first.(reminders := Cancelled(first.reminders, symbiot, r, now));
            var (retried, outcome) := Schedule(calledOff, symbiot, message, again, None, body, Some(at), now);
            && set_ == Acted && outcome == Acted
            && retried == calledOff && HasReminder(retried.reminders, message)
            && forall q :: q in retried.reminders ==> !LiveReminder(retried.reminders[q])
  {
    var first := Schedule(Book(map[], map[]), symbiot, message, r, None, body, Some(at), now).0;
    assert first.reminders == map[r := Reminder(Some(message), symbiot, body, at, None, None)];
    var calledOff := Cancelled(first.reminders, symbiot, r, now);
    assert calledOff[r].intake == Some(message);
  }

  /** Where any number of legal steps may have led a row: it stays whose it is, and a settled one stays as it is. */
  ghost predicate Became(row: Reminder, row': Reminder) {
    row'.intake == row.intake && row'.symbiot == row.symbiot
    && (row.firedAt.Some? || row.cancelledAt.Some? ==> row' == row)
  }

  /** The row is read, and only then written under its guard; between the two it may move any number of times.  The
      refusal names the state the row was read in, and that is its state now if and only if it was not a live row that
      fired in the gap. */
  lemma RefusalNamesTheState(before: Reminders, after: Reminders, symbiot: int, r: int)
    requires Find(before, symbiot, r).Some? && r in after && Became(before[r], after[r])
    requires !Scoped(after, symbiot, r)
    ensures !LiveReminder(after[r])
    ensures Refused(before[r]) == Refused(after[r]) <==> !(LiveReminder(before[r]) && after[r].firedAt.Some?)
  {
  }

  /** The witness: a live reminder read for a cancel fires before the write, and the symbiot is told they had called
      it off. */
  lemma FiredYetCalledOff(r: int, row: Reminder, now: real)
    requires LiveReminder(row) && row.body != ""
    ensures var before := map[r := row];
            var after := Stamped(before, r, now);
            && Turns(before, after) && !Scoped(after, row.symbiot, r)
            && Refused(before[r]) == CalledOff && Refused(after[r]) == HasFired
  {
    TurnsOne(map[r := row], r, row.(firedAt := Some(now)));
  }

  lemma CallOffTurns(book: Book, symbiot: int, meant: Option<int>, now: real)
    requires BookOk(book.reminders)
    ensures var (after, outcome) := CallOff(book, symbiot, meant, now);
            && BookOk(after.reminders) && Turns(book.reminders, after.reminders) && after.declines == book.declines
            && (outcome == Acted <==> after.reminders != book.reminders)
            && (outcome == Acted <==> StillHeld(book.reminders, symbiot, meant))
            && (outcome == Acted ==>
                  after.reminders == book.reminders[meant.value :=
                                       book.reminders[meant.value].(cancelledAt := Some(now))])
            && (outcome == Unclear <==> meant.None?)
            && (outcome == Unable(OffRecord) <==> meant.Some? && Find(book.reminders, symbiot, meant.value).None?)
            && (outcome == Unable(HasFired) <==>
                  meant.Some? && Find(book.reminders, symbiot, meant.value).Some?
                  && book.reminders[meant.value].firedAt.Some?)
            && (outcome == Unable(CalledOff) <==>
                  meant.Some? && Find(book.reminders, symbiot, meant.value).Some?
                  && book.reminders[meant.value].cancelledAt.Some?)
  {
    TurnsStay(book.reminders);
    if meant.Some? {
      CancelTurns(book.reminders, symbiot, meant.value, now);
      if Scoped(book.reminders, symbiot, meant.value) {
        assert Cancelled(book.reminders, symbiot, meant.value, now)[meant.value].cancelledAt.Some?;
      }
    }
  }

  /** One row is meant, there is something to change about it, and no moment named has gone by. */
  predicate Asked(meant: Option<int>, body: string, fireAt: Option<real>, now: real) {
    meant.Some? && (body != "" || fireAt.Some?) && (fireAt.Some? ==> fireAt.value > now)
  }

  lemma ChangeTurns(book: Book, symbiot: int, meant: Option<int>, body: string, fireAt: Option<real>, now: real)
    requires BookOk(book.reminders)
    ensures var (after, outcome) := Change(book, symbiot, meant, body, fireAt, now);
            && BookOk(after.reminders) && Turns(book.reminders, after.reminders) && after.declines == book.declines
            && (after.reminders != book.reminders ==> outcome == Acted)
            && (outcome == Unclear <==> meant.None? || (body == "" && fireAt.None?))
            && (outcome == Unable(GoneBy) <==> meant.Some? && fireAt.Some? && fireAt.value <= now)
            && (outcome == Acted <==> Asked(meant, body, fireAt, now) && StillHeld(book.reminders, symbiot, meant))
            && (outcome == Unable(OffRecord) <==>
                  Asked(meant, body, fireAt, now) && Find(book.reminders, symbiot, meant.value).None?)
            && (outcome == Unable(HasFired) <==>
                  && Asked(meant, body, fireAt, now) && Find(book.reminders, symbiot, meant.value).Some?
                  && book.reminders[meant.value].firedAt.Some?)
            && (outcome == Unable(CalledOff) <==>
                  && Asked(meant, body, fireAt, now) && Find(book.reminders, symbiot, meant.value).Some?
                  && book.reminders[meant.value].cancelledAt.Some?)
            && (outcome == Acted ==> StandsAs(after.reminders[meant.value],
                                              if body == "" then book.reminders[meant.value].body else body,
                                              Coalesce(fireAt, book.reminders[meant.value].fireAt)))
  {
    TurnsStay(book.reminders);
    if meant.Some? {
      EditTurns(book.reminders, symbiot, meant.value, if body == "" then None else Some(body), fireAt);
    }
  }
}
