/** The kernel as one machine: the shared store, every thread at work on it, and each committed transaction, guarded
    UPDATE, lock or read as one atomic step (services/loop/worker.py, services/memory/intake.py, main.py:385-417).

A thread may be anywhere in its pass while any other one moves; it may be stopped, be late, or die at any point.
Replies, verdicts, clocks and the ids the database hands out are arbitrary.  A step that the store, a lock or the shape
a text must have would not let through changes nothing: it may be tried again later.  The shapes are the request's and
the replies' own: a line, an answer and a reminder's words are never empty (core/dtos.py:43, core/dtos.py:170,
services/loop/reply.py:138, services/tools/tools.py:231). */
module Kernel {
  import opened Prelude
  import opened Tables
  import opened Lifecycle
  import opened Gradient
  import opened ReminderTool
  import opened Stream
  import opened Filing

  // ----- what a thread in the middle of its pass holds

  /** A worker with a claimed message, from the claim to the outcome it reports. */
  datatype Holding = Holding(message: int, text: string, symbiot: Option<int>)

  /** A fold under its advisory lock, by how far its transaction has read. */
  datatype Fold =
    | Owned(symbiot: int)
    | HasGist(symbiot: int, prior: Option<Gist>)
    | HasTurns(symbiot: int, prior: Option<Gist>, turns: seq<Item>, reached: int)

  /** An enrichment pass: the burst it read, before or after it got the symbiot's lock. */
  datatype Pass = Pass(symbiot: int, members: seq<int>, locked: bool)

  datatype State = State(
    max: int,                        // the configured retry budget
    intake: Intake,
    stream: seq<Item>,
    gists: seq<Gist>,
    missives: Missives,
    book: Book,
    enrichments: Enrichments,
    diary: Diary,
    workers: map<int, Holding>,
    folders: map<int, Fold>,
    passes: map<int, Pass>,
    firers: map<int, int>,           // the reminder whose row lock each firing holds
    filers: map<int, int>)           // the message each ingestion read as unfiled

  function Empty(max: int): State {
    State(max, map[], [], [], map[], Book(map[], map[]), map[], Diary(map[], map[], [], []),
          map[], map[], map[], map[], map[])
  }

  /** How a reply ended in the killable child. */
  datatype Report = Completed(answer: string) | TimedOut | Crashed(trace: string)

  datatype Call =
    | Set(reminder: int, meant: Option<int>, body: string, fireAt: Option<real>)
    | Drop(meant: Option<int>)
    | Move(meant: Option<int>, body: string, fireAt: Option<real>)

  datatype Step =
    // intake and the worker pool
    | Receive(m: int, text: string, sender: Option<int>, item: int, now: real)
    | Claim(w: int, m: int, now: real)
    | Act(w: int, call: Call, now: real)
    | Finish(w: int, report: Report, item: int, now: real)
    | Lose(w: int)
    // the reconcile sweep, the delivery mark, and a restart
    | FailOverdue(ceiling: real, now: real)
    | RequeueFailed(now: real)
    | AbandonExhausted(now: real)
    | MarkDelivered(ids: set<int>, now: real)
    | Restart(now: real)
    // lines the kernel raises, and the reminder routes
    | Tell(x: int, symbiot: int, body: string, item: int, now: real)
    | Remind(r: int, symbiot: int, body: string, fireAt: real)
    | Cancel(r: int, symbiot: int, now: real)
    | Edit(r: int, symbiot: int, newBody: Option<string>, newFireAt: Option<real>)
    // the compression sweep
    | LockFold(f: int, symbiot: int)
    | ReadGist(f: int)
    | ReadPending(f: int, budget: int)
    | CommitFold(f: int, text: string)
    | EndFold(f: int)
    // the enrichment sweep
    | ReadBurst(e: int, symbiot: int, members: seq<int>)
    | LockBurst(e: int)
    | CommitBurst(e: int, surface: bool, echo: bool, body: string, x: int, item: int, now: real)
    | EndPass(e: int)
    // the reminder sweep
    | ClaimDue(d: int, r: int, now: real)
    | CommitFire(d: int, x: int, item: int, now: real)
    | EndFire(d: int)
    // the ingestion sweep
    | ReadUnfiled(g: int, m: int)
    | File(g: int, id: int, routed: seq<int>, rank: int -> real, happenedAt: Option<real>)
    | EndFiling(g: int)

  // ----- the bulk UPDATEs

  function OverdueFailed(intake: Intake, ceiling: real, now: real): Intake {
    Updated(intake, (m: Message) => Overdue(m, ceiling, now), (m: Message) => FailedWith(m, SWEEP_REASON, now))
  }

  function FailedRequeued(intake: Intake, max: int, now: real): Intake {
    Updated(intake, (m: Message) => m.status == Failed && m.attempts < max, (m: Message) => Requeued(m, now))
  }

  function ExhaustedAbandoned(intake: Intake, max: int, now: real): Intake {
    Updated(intake, (m: Message) => m.status == Failed && m.attempts >= max, (m: Message) => GivenUp(m, now))
  }

  function OrphansRequeued(intake: Intake, max: int, now: real): Intake {
    Updated(intake, (m: Message) => m.status == Working && m.attempts < max, (m: Message) => Recovered(m, now))
  }

  function OrphansAbandoned(intake: Intake, max: int, now: real): Intake {
    Updated(intake, (m: Message) => m.status == Working && m.attempts >= max, (m: Message) => Orphaned(m, now))
  }

  function DeliveryMarked(intake: Intake, ids: set<int>, now: real): Intake {
    map m | m in intake :: if m in ids && Undelivered(intake[m]) then Shown(intake[m], now) else intake[m]
  }

  // ----- one step of each kind

  ghost function DoReceive(s: State, m: int, text: string, sender: Option<int>, item: int, now: real): State {
    if m in s.intake || text == "" || (sender.Some? && !CanAppend(s.stream, item, sender.value)) then s
    else
      s.(intake := s.intake[m := Fresh(text, sender, now)],
         stream := if sender.Some? then s.stream + [SaidItem(item, sender.value, m, text, now)] else s.stream)
  }

  function DoClaim(s: State, w: int, m: int, now: real): State {
    if w in s.workers || m !in s.intake || s.intake[m].status != Received then s
    else
      s.(intake := s.intake[m := Claimed(s.intake[m], now)],
         workers := s.workers[w := Holding(m, s.intake[m].text, s.intake[m].symbiot)])
  }

  /** A row lock a firing holds keeps other writers of that reminder waiting. */
  predicate Locked(s: State, r: Option<int>) {
    r.Some? && r.value in s.firers.Values
  }

  function Called(s: State, symbiot: int, message: int, call: Call, now: real): Book {
    match call
    case Set(r, meant, body, fireAt) =>
      if r in s.book.reminders then s.book
      else Schedule(s.book, symbiot, message, r, meant, body, fireAt, now).0
    case Drop(meant) =>
      if Locked(s, meant) then s.book else CallOff(s.book, symbiot, meant, now).0
    case Move(meant, body, fireAt) =>
      if Locked(s, meant) then s.book else Change(s.book, symbiot, meant, body, fireAt, now).0
  }

  function DoAct(s: State, w: int, call: Call, now: real): State {
    if w !in s.workers || s.workers[w].symbiot.None? then s
    else s.(book := Called(s, s.workers[w].symbiot.value, s.workers[w].message, call, now))
  }

  predicate StillWorking(s: State, m: int) {
    m in s.intake && s.intake[m].status == Working
  }

  /** The outcome a worker reports moves the row only if it finds it working; the worker lets go either way. */
  ghost function DoFinish(s: State, w: int, report: Report, item: int, now: real): State {
    if w !in s.workers then s
    else
      var h := s.workers[w];
      var free := s.(workers := s.workers - {w});
      if !StillWorking(s, h.message) then free
      else
        match report
        case Completed(answer) =>
          if answer == "" || (h.symbiot.Some? && !CanAppend(s.stream, item, h.symbiot.value)) then s
          else
            free.(intake := s.intake[h.message := AnsweredWith(s.intake[h.message], answer, now)],
                  stream := if h.symbiot.Some?
                            then s.stream + [RepliedItem(item, h.symbiot.value, h.message, answer, now)]
                            else s.stream)
        case TimedOut =>
          free.(intake := s.intake[h.message := FailedWith(s.intake[h.message], "deadline exceeded", now)])
        case Crashed(trace) =>
          free.(intake := s.intake[h.message := FailedWith(s.intake[h.message], trace, now)])
  }

  /** The process dies with every thread in it, and its open transactions roll back; the next boot takes the orphans. */
  function DoRestart(s: State, now: real): State {
    s.(intake := OrphansAbandoned(OrphansRequeued(s.intake, s.max, now), s.max, now),
       workers := map[], folders := map[], passes := map[], firers := map[], filers := map[])
  }

  ghost function DoTell(s: State, x: int, symbiot: int, body: string, item: int, now: real): State {
    if x in s.missives || body == "" || !CanAppend(s.stream, item, symbiot) then s
    else
      s.(missives := s.missives[x := Missive(symbiot, body, Told)],
         stream := s.stream + [RaisedItem(item, symbiot, x, body, now)])
  }

  function DoRemind(s: State, r: int, symbiot: int, body: string, fireAt: real): State {
    if r in s.book.reminders || body == "" then s
    else s.(book := s.book.(reminders := Created(s.book.reminders, r, symbiot, body, fireAt, None)))
  }

  function DoCancel(s: State, r: int, symbiot: int, now: real): State {
    if Locked(s, Some(r)) then s
    else s.(book := s.book.(reminders := Cancelled(s.book.reminders, symbiot, r, now)))
  }

  function DoEdit(s: State, r: int, symbiot: int, body: Option<string>, fireAt: Option<real>): State {
    if Locked(s, Some(r)) || body == Some("") then s
    else s.(book := s.book.(reminders := Edited(s.book.reminders, symbiot, r, body, fireAt)))
  }

  // the compression sweep

  ghost predicate FoldHeld(folders: map<int, Fold>, symbiot: int) {
    exists f :: f in folders && folders[f].symbiot == symbiot
  }

  ghost function DoLockFold(s: State, f: int, symbiot: int): State {
    if f in s.folders || FoldHeld(s.folders, symbiot) then s
    else s.(folders := s.folders[f := Owned(symbiot)])
  }

  function DoReadGist(s: State, f: int): State {
    if f !in s.folders || !s.folders[f].Owned? then s
    else
      var symbiot := s.folders[f].symbiot;
      s.(folders := s.folders[f := HasGist(symbiot, CurrentGist(s.gists, symbiot))])
  }

  function DoReadPending(s: State, f: int, budget: int): State {
    if f !in s.folders || !s.folders[f].HasGist? then s
    else
      var fold := s.folders[f];
      var (turns, reached) := PendingForFold(s.stream, fold.symbiot, budget, CutoffOf(fold.prior));
      TurnsRead(s, f, turns, reached)
  }

  /** Nothing to fold ends the pass. */
  function TurnsRead(s: State, f: int, turns: seq<Item>, reached: int): State
    requires f in s.folders && s.folders[f].HasGist?
  {
    if turns == [] then s.(folders := s.folders - {f})
    else s.(folders := s.folders[f := HasTurns(s.folders[f].symbiot, s.folders[f].prior, turns, reached)])
  }

  function DoCommitFold(s: State, f: int, text: string): State {
    if f !in s.folders || !s.folders[f].HasTurns? then s
    else
      var fold := s.folders[f];
      s.(gists := s.gists + [Gist(fold.symbiot, text, fold.reached, AbsorbedBy(fold.prior) + fold.turns)],
         folders := s.folders - {f})
  }

  // the enrichment sweep

  /** Authed, answered, and not yet enriched. */
  predicate Eligible(s: State, m: int) {
    m in s.intake && s.intake[m].symbiot.Some? && s.intake[m].status == Answered && m !in s.enrichments
  }

  ghost function DoReadBurst(s: State, e: int, symbiot: int, members: seq<int>): State {
    if e in s.passes || members == [] then s
    else if forall k :: 0 <= k < |members| ==>
              Eligible(s, members[k]) && s.intake[members[k]].symbiot == Some(symbiot) then
      s.(passes := s.passes[e := Pass(symbiot, members, false)])
    else s
  }

  ghost predicate PassHeld(passes: map<int, Pass>, symbiot: int) {
    exists e :: e in passes && passes[e].locked && passes[e].symbiot == symbiot
  }

  /** The lock, or, when another pass holds it, the end of this one. */
  ghost function DoLockBurst(s: State, e: int): State {
    if e !in s.passes || s.passes[e].locked then s
    else LockTried(s, e, PassHeld(s.passes, s.passes[e].symbiot))
  }

  function LockTried(s: State, e: int, held: bool): State
    requires e in s.passes
  {
    if held then s.(passes := s.passes - {e}) else s.(passes := s.passes[e := s.passes[e].(locked := true)])
  }

  /** The row a pass writes for one member: only the anchor's carries the outcome. */
  function RowFor(m: int, symbiot: int, missive: Option<int>, echo: bool, anchor: int): Enrichment {
    if m == anchor then Enrichment(symbiot, missive.Some?, missive, echo, anchor)
    else Enrichment(symbiot, false, None, false, anchor)
  }

  function RecordedAll(
    enrichments: Enrichments, members: seq<int>, symbiot: int, missive: Option<int>, echo: bool, anchor: int)
    : Enrichments
  {
    if members == [] then enrichments
    else
      var m := members[|members| - 1];
      var before := RecordedAll(enrichments, members[..|members| - 1], symbiot, missive, echo, anchor);
      before[m := RowFor(m, symbiot, missive, echo, anchor)]
  }

  /** A gate that surfaces nothing to say is downgraded to one that stays silent. */
  predicate Speaks(surface: bool, body: string) {
    surface && body != ""
  }

  /** What the pass writes, or nothing at all: a member someone else recorded meanwhile, or a member listed twice,
      breaks the UNIQUE intake_id and rolls the missive and its stream row back with it. */
  ghost function DoCommitBurst(
    s: State, e: int, surface: bool, echo: bool, body: string, x: int, item: int, now: real): State
  {
    if e !in s.passes || !s.passes[e].locked then s
    else if s.passes[e].members == [] || !Unrecorded(s.enrichments, s.passes[e].members) then
      s.(passes := s.passes - {e})
    else if !Speaks(surface, body) then SilentCommit(s, e, false)
    else if echo then SilentCommit(s, e, true)
    else SpokenCommit(s, e, body, x, item, now)
  }

  /** Every member recorded, and nothing said; `held` when what the gate composed echoes an earlier follow-up. */
  function SilentCommit(s: State, e: int, held: bool): State
    requires e in s.passes && s.passes[e].members != []
  {
    var p := s.passes[e];
    s.(passes := s.passes - {e},
       enrichments := RecordedAll(s.enrichments, p.members, p.symbiot, None, held, p.members[|p.members| - 1]))
  }

  /** The follow-up, its stream row and every member's row together. */
  ghost function SpokenCommit(s: State, e: int, body: string, x: int, item: int, now: real): State
    requires e in s.passes && s.passes[e].members != []
  {
    var p := s.passes[e];
    var anchor := p.members[|p.members| - 1];
    if x in s.missives || !CanAppend(s.stream, item, p.symbiot) then s
    else
      s.(passes := s.passes - {e},
         missives := s.missives[x := Missive(p.symbiot, body, FollowUp(anchor))],
         stream := s.stream + [RaisedItem(item, p.symbiot, x, body, now)],
         enrichments := RecordedAll(s.enrichments, p.members, p.symbiot, Some(x), false, anchor))
  }

  /** No insert of these will meet a row that is there already, or one of its own. */
  predicate Unrecorded(enrichments: Enrichments, members: seq<int>) {
    && (forall k :: 0 <= k < |members| ==> members[k] !in enrichments)
    && (forall i, j :: 0 <= i < j < |members| ==> members[i] != members[j])
  }

  // the reminder sweep

  function DoClaimDue(s: State, d: int, r: int, now: real): State {
    if d in s.firers || r !in s.book.reminders || !Due(s.book.reminders[r], now) || r in s.firers.Values then s
    else s.(firers := s.firers[d := r])
  }

  ghost function DoCommitFire(s: State, d: int, x: int, item: int, now: real): State {
    if d !in s.firers || s.firers[d] !in s.book.reminders then s
    else
      var r := s.firers[d];
      var row := s.book.reminders[r];
      if x in s.missives || !CanAppend(s.stream, item, row.symbiot) then s
      else
        s.(missives := s.missives[x := Missive(row.symbiot, row.body, Fired(r))],
           stream := s.stream + [RaisedItem(item, row.symbiot, x, row.body, now)],
           book := s.book.(reminders := Stamped(s.book.reminders, r, now)),
           firers := s.firers - {d})
  }

  // the ingestion sweep

  /** Authed, settled, and no fact bears its id. */
  predicate Unfiled(s: State, m: int) {
    && m in s.intake && s.intake[m].symbiot.Some? && s.intake[m].status in {Answered, Abandoned}
    && m !in s.diary.filed
  }

  function DoReadUnfiled(s: State, g: int, m: int): State {
    if g in s.filers || !Unfiled(s, m) then s else s.(filers := s.filers[g := m])
  }

  function DoFile(s: State, g: int, id: int, routed: seq<int>, rank: int -> real, happenedAt: Option<real>): State {
    if g !in s.filers || s.filers[g] !in s.intake || id in s.diary.facts then s
    else
      var m := s.filers[g];
      s.(diary := Persisted(s.diary, id, s.intake[m].text, Concepts(routed, rank), happenedAt, Some(m)).0,
         filers := s.filers - {g})
  }

  // ----- the machine

  predicate OfTheMessages(step: Step) {
    step.Receive? || step.Claim? || step.Act? || step.Finish? || step.FailOverdue? || step.RequeueFailed?
    || step.AbandonExhausted? || step.MarkDelivered? || step.Restart?
  }

  predicate OfTheReminders(step: Step) {
    step.Tell? || step.Remind? || step.Cancel? || step.Edit? || step.ClaimDue? || step.CommitFire?
  }

  predicate OfTheMemory(step: Step) {
    step.LockFold? || step.ReadGist? || step.ReadPending? || step.CommitFold?
  }

  predicate OfTheDiary(step: Step) {
    step.ReadBurst? || step.LockBurst? || step.CommitBurst? || step.ReadUnfiled? || step.File?
  }

  /** A thread that gives up, or dies, takes only what it held with it. */
  predicate OfLettingGo(step: Step) {
    step.Lose? || step.EndFold? || step.EndPass? || step.EndFire? || step.EndFiling?
  }

  ghost function OnMessages(s: State, step: Step): State
    requires OfTheMessages(step)
  {
    match step
    case Receive(m, text, sender, item, now) => DoReceive(s, m, text, sender, item, now)
    case Claim(w, m, now) => DoClaim(s, w, m, now)
    case Act(w, call, now) => DoAct(s, w, call, now)
    case Finish(w, report, item, now) => DoFinish(s, w, report, item, now)
    case FailOverdue(ceiling, now) => s.(intake := OverdueFailed(s.intake, ceiling, now))
    case RequeueFailed(now) => s.(intake := FailedRequeued(s.intake, s.max, now))
    case AbandonExhausted(now) => s.(intake := ExhaustedAbandoned(s.intake, s.max, now))
    case MarkDelivered(ids, now) => s.(intake := DeliveryMarked(s.intake, ids, now))
    case Restart(now) => DoRestart(s, now)
  }

  ghost function OnReminders(s: State, step: Step): State
    requires OfTheReminders(step)
  {
    match step
    case Tell(x, symbiot, body, item, now) => DoTell(s, x, symbiot, body, item, now)
    case Remind(r, symbiot, body, fireAt) => DoRemind(s, r, symbiot, body, fireAt)
    case Cancel(r, symbiot, now) => DoCancel(s, r, symbiot, now)
    case Edit(r, symbiot, newBody, newFireAt) => DoEdit(s, r, symbiot, newBody, newFireAt)
    case ClaimDue(d, r, now) => DoClaimDue(s, d, r, now)
    case CommitFire(d, x, item, now) => DoCommitFire(s, d, x, item, now)
  }

  ghost function OnMemory(s: State, step: Step): State
    requires OfTheMemory(step)
  {
    match step
    case LockFold(f, symbiot) => DoLockFold(s, f, symbiot)
    case ReadGist(f) => DoReadGist(s, f)
    case ReadPending(f, budget) => DoReadPending(s, f, budget)
    case CommitFold(f, text) => DoCommitFold(s, f, text)
  }

  ghost function OnDiary(s: State, step: Step): State
    requires OfTheDiary(step)
  {
    match step
    case ReadBurst(e, symbiot, members) => DoReadBurst(s, e, symbiot, members)
    case LockBurst(e) => DoLockBurst(s, e)
    case CommitBurst(e, surface, echo, body, x, item, now) => DoCommitBurst(s, e, surface, echo, body, x, item, now)
    case ReadUnfiled(g, m) => DoReadUnfiled(s, g, m)
    case File(g, id, routed, rank, happenedAt) => DoFile(s, g, id, routed, rank, happenedAt)
  }

  function LetGo(s: State, step: Step): State
    requires OfLettingGo(step)
  {
    match step
    case Lose(w) => s.(workers := s.workers - {w})
    case EndFold(f) => s.(folders := s.folders - {f})
    case EndPass(e) => s.(passes := s.passes - {e})
    case EndFire(d) => s.(firers := s.firers - {d})
    case EndFiling(g) => s.(filers := s.filers - {g})
  }

  ghost function Apply(s: State, step: Step): State {
    if OfTheMessages(step) then OnMessages(s, step)
    else if OfTheReminders(step) then OnReminders(s, step)
    else if OfTheMemory(step) then OnMemory(s, step)
    else if OfTheDiary(step) then OnDiary(s, step)
    else LetGo(s, step)
  }

  /** The run of a whole schedule of steps. */
  ghost function Exec(s: State, steps: seq<Step>): State {
    if steps == [] then s else Apply(Exec(s, steps[..|steps| - 1]), steps[|steps| - 1])
  }
}
