/** The kernel's rows, as the migrations define them (migrations/0002, 0004, 0006, 0007, 0013, 0014, 0015, 0017,
    0021, 0023, 0024).

Three columns are history the store does not keep, added so that a run can be spoken about: what a Gist has absorbed,
what a missive was raised for, and which pass an enrichment row was written by. */
module Tables {
  import opened Prelude

  datatype Status = Received | Working | Failed | Answered | Abandoned

  datatype Message = Message(
    text: string, symbiot: Option<int>, status: Status, answer: Option<string>, reason: Option<string>,
    attempts: nat, createdAt: real, updatedAt: real, deliveredAt: Option<real>)

  /** Which words a stream row points at, and so which side said them: a symbiot's message, the machine's answer to it,
      or a line the machine raised.  The schema's "exactly one source" CHECK is this type. */
  datatype Line = Said(message: int) | Replied(message: int) | Raised(missive: int)

  datatype Item = Item(id: int, symbiot: int, line: Line, tokens: nat, createdAt: real)

  datatype Gist = Gist(symbiot: int, text: string, cutoff: int, absorbed: seq<Item>)

  datatype Origin = Fired(reminder: int) | FollowUp(anchor: int) | Told

  datatype Missive = Missive(symbiot: int, body: string, origin: Origin)

  datatype Reminder = Reminder(
    intake: Option<int>, symbiot: int, body: string, fireAt: real, firedAt: Option<real>, cancelledAt: Option<real>)

  datatype Enrichment = Enrichment(
    symbiot: int, surfaced: bool, missive: Option<int>, echoSuppressed: bool, anchor: int)

  type Intake = map<int, Message>
  type Missives = map<int, Missive>
  type Reminders = map<int, Reminder>
  type Enrichments = map<int, Enrichment>  // by the UNIQUE intake_id

  ghost predicate Terminal(m: Message) {
    m.status in {Answered, Abandoned}
  }

  predicate LiveReminder(r: Reminder) {
    r.firedAt.None? && r.cancelledAt.None?
  }
}
