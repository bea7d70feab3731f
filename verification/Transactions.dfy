/** The store as the source drives it: one object whose tables the guarded UPDATEs and the workers' transactions rewrite
    in place (services/memory/intake.py, services/memory/conversation.py, services/memory/enrichment.py,
    services/tools/reminder.py, services/loop/worker.py, services/loop/missive.py).

Each transaction is shown to be the step of the kernel machine that stands for it, with no other thread in flight. */
module Transactions {
  import opened Prelude
  import opened Tables
  import opened Lifecycle
  import opened Gradient
  import opened ReminderTool
  import opened Stream
  import opened Filing
  import opened Kernel
  import opened KernelInvariants
  import PromptBudget

  predicate IsLeast(s: set<int>, m: int) {
    m in s && forall x :: x in s ==> m <= x
  }

  lemma {:induction false} LeastExists(s: set<int>) returns (m: int)
    requires s != {}
    ensures IsLeast(s, m)
    decreases |s|
  {
    m := Member(s);
    if s != {m} {
      var rest := s - {m};
      assert s == rest + {m};
      var least := LeastExists(rest);
      m := if m <= least then m else least;
    }
  }

  /** `ORDER BY id LIMIT 1` */
  function Least(s: set<int>): (m: int)
    requires s != {}
    ensures m in s && forall x :: x in s ==> m <= x
  {
    assert exists m :: IsLeast(s, m) by {
      var m := LeastExists(s);
    }
    var m :| m in s && IsLeast(s, m);
    m
  }

  /** `ORDER BY fire_at LIMIT 1`: a soonest one, whichever of equals. */
  ghost predicate Soonest(s: set<int>, reminders: Reminders, r: int)
    requires forall q :: q in s ==> q in reminders
  {
    r in s && forall q :: q in s ==> reminders[r].fireAt <= reminders[q].fireAt
  }

  lemma {:induction false} SoonestExists(s: set<int>, reminders: Reminders) returns (r: int)
    requires s != {} && forall q :: q in s ==> q in reminders
    ensures Soonest(s, reminders, r)
    decreases |s|
  {
    var y := Member(s);
    r := y;
    if s != {y} {
      var rest := s - {y};
      assert s == rest + {y};
      r := SoonestExists(rest, reminders);
      if reminders[y].fireAt < reminders[r].fireAt {
        r := y;
      }
    }
  }

  // ----- what a worker's killable children come back with

  datatype Child<T> = Done(value: T) | Overran | Died(trace: string)

  /** What the decide step names: no tool, or one of the reminder tools with the arguments it read. */
  datatype Decision =
    | NoTool
    | SetReminder(body: string, fireAt: Option<real>)
    | CancelReminder
    | ReadReminders
    | UpdateReminder(body: string, fireAt: Option<real>)

  /** What the look step has to go on: nothing where no hook ran, it raised or it found nothing, else some candidates
      and what became of the judging call on them. */
  datatype Look = Nothing | Judged(verdict: Child<Option<int>>)

  /** The row the executor may take as meant.  Everything short of a completed verdict that names one is none. */
  function Match(look: Look): Option<int> {
    if look.Judged? && look.verdict.Done? then look.verdict.value else None
  }

  /** What the named tool's executor is asked to do to the store; reading it changes nothing. */
  function CallFor(decision: Decision, look: Look, r: int): Option<Call> {
    match decision
    case NoTool => None
    case SetReminder(body, fireAt) => Some(Set(r, Match(look), body, fireAt))
    case CancelReminder => Some(Drop(Match(look)))
    case ReadReminders => None
    case UpdateReminder(body, fireAt) => Some(Move(Match(look), body, fireAt))
  }

  /** What a decision's executor makes of the book, given the row the look step found meant, if it found one. */
  function Dispatched(
    book: Book, symbiot: int, message: int, decision: Decision, meant: Option<int>, r: int, now: real): Book
    requires r !in book.reminders
  {
    match decision
    case NoTool => book
    case SetReminder(body, fireAt) => Schedule(book, symbiot, message, r, meant, body, fireAt, now).0
    case CancelReminder => CallOff(book, symbiot, meant, now).0
    case ReadReminders => book
    case UpdateReminder(body, fireAt) => Change(book, symbiot, meant, body, fireAt, now).0
  }

  /** A row the deadline sweep has passed over: failed if it was being worked on and that had begun more than the
      ceiling ago, and as it was otherwise. */
  ghost predicate RowSwept(before: Intake, after: Intake, ceiling: real, now: real, m: int) {
    && m in before && m in after
    && after[m] == if before[m].status == Working && before[m].updatedAt + ceiling < now
                   then before[m].(status := Failed, reason := Some(SWEEP_REASON), updatedAt := now) else before[m]
  }

  /** The three sweeps of one reconcile pass, in their order. */
  function Reconciled(intake: Intake, max: int, ceiling: real, now: real): Intake {
    ExhaustedAbandoned(FailedRequeued(OverdueFailed(intake, ceiling, now), max, now), max, now)
  }

  /** A pass leaves no failed row: what failed, or overstayed, is waiting again while it has tries left and given up
      once it has none, and nothing else is touched. */
  lemma ReconciledSettles(intake: Intake, max: int, ceiling: real, now: real, m: int)
    requires m in intake
    ensures var row, row' := intake[m], Reconciled(intake, max, ceiling, now)[m];
            var late := row.status == Working && row.updatedAt + ceiling < now;
            && row'.status != Failed && !(row'.status == Working && row'.updatedAt + ceiling < now)
            && (row.status == Failed || late ==>
                  && row'.status == (if row.attempts < max then Received else Abandoned)
                  && row'.reason == (if row.attempts < max then None
                                     else if row.status == Failed then row.reason else Some(SWEEP_REASON)))
            && (!(row.status == Failed || late) ==> row' == row)
  {
  }

  /** A row the pass sends back for another try: failed before it, or by it, with tries left. */
  predicate Retried(m: Message, max: int, ceiling: real, now: real) {
    (m.status == Failed || Overdue(m, ceiling, now)) && m.attempts < max
  }

  lemma SameRetried(intake: Intake, max: int, ceiling: real, now: real)
    ensures var failed := OverdueFailed(intake, ceiling, now);
            (set m | m in failed && failed[m].status == Failed && failed[m].attempts < max)
            == (set m | m in intake && Retried(intake[m], max, ceiling, now))
  {
  }

  lemma PassAbandons(intake: Intake, max: int, ceiling: real, now: real, m: int)
    requires m in intake
    ensures var failed := FailedRequeued(OverdueFailed(intake, ceiling, now), max, now);
            && m in failed
            && (failed[m].status == Failed <==>
                  intake[m].status != Abandoned && Reconciled(intake, max, ceiling, now)[m].status == Abandoned)
  {
  }

  /** The rows one table has as abandoned and the other has not. */
  function NewlyAbandoned(before: Intake, after: Intake): set<int> {
    set m | m in before && m in after && before[m].status != Abandoned && after[m].status == Abandoned
  }

  lemma PassesAbandon(intake: Intake, max: int, ceiling: real, now: real)
    ensures var failed := FailedRequeued(OverdueFailed(intake, ceiling, now), max, now);
            (set m | m in failed && failed[m].status == Failed && failed[m].attempts >= max)
            == NewlyAbandoned(intake, Reconciled(intake, max, ceiling, now))
  {
    var failed := FailedRequeued(OverdueFailed(intake, ceiling, now), max, now);
    forall m | m in intake
      ensures failed[m].status == Failed && failed[m].attempts >= max
         <==> intake[m].status != Abandoned && Reconciled(intake, max, ceiling, now)[m].status == Abandoned
    {
      PassAbandons(intake, max, ceiling, now, m);
    }
  }

  /** Each sweep is a step of the machine, and so the pass is three. */
  lemma PassIsThreeSteps(s: State, ceiling: real, now: real)
    ensures Apply(Apply(Apply(s, Step.FailOverdue(ceiling, now)), Step.RequeueFailed(now)), Step.AbandonExhausted(now))
         == s.(intake := Reconciled(s.intake, s.max, ceiling, now))
  {
    var failed := Apply(s, Step.FailOverdue(ceiling, now));
    assert failed == s.(intake := OverdueFailed(s.intake, ceiling, now));
    var requeued := Apply(failed, Step.RequeueFailed(now));
    assert requeued == s.(intake := FailedRequeued(failed.intake, s.max, now));
  }

  /** The try under way stands through the pass up to the ceiling, counted from its own start, and no longer. */
  ghost predicate TryStands(before: Intake, after: Intake, ceiling: real, now: real, m: int) {
    m in before && before[m].status == Working ==>
      m in after && (after[m].status == Working <==> now <= before[m].updatedAt + ceiling)
  }

  lemma TriesStand(intake: Intake, max: int, ceiling: real, now: real)
    ensures var after := Reconciled(intake, max, ceiling, now);
            forall m {:trigger TryStands(intake, after, ceiling, now, m)} :: TryStands(intake, after, ceiling, now, m)
  {
    var after := Reconciled(intake, max, ceiling, now);
    forall m
      ensures TryStands(intake, after, ceiling, now, m)
    {
      if m in intake { ReconciledSettles(intake, max, ceiling, now, m); }
    }
  }

  /** Every turn of theirs that is still verbatim, and there is one, is older than the idle time. */
  ghost predicate Silent(stream: seq<Item>, gists: seq<Gist>, symbiot: int, idle: real, now: real) {
    var tail := Tail(stream, symbiot, Cutoff(gists, symbiot));
    tail != [] && forall i :: 0 <= i < |tail| ==> tail[i].createdAt + idle < now
  }

  lemma SilentIsPicked(stream: seq<Item>, gists: seq<Gist>, idle: real, now: real)
    ensures var next := NextToCollapse(stream, gists, idle, now);
            && (next.Some? <==> exists s :: Silent(stream, gists, s, idle, now))
            && (next.Some? ==> Silent(stream, gists, next.value, idle, now))
  {
    var next := NextToCollapse(stream, gists, idle, now);
    if next.Some? {
      PickedBySilence(stream, gists, idle, now, next.value);
      assert Silent(stream, gists, next.value, idle, now);
    } else if s :| Silent(stream, gists, s, idle, now) {
      PickedBySilence(stream, gists, idle, now, s);
    }
  }

  /** The rows a delivery acknowledgement may stamp. */
  function Deliverable(intake: Intake, ids: set<int>): set<int> {
    set m | m in intake && m in ids && Undelivered(intake[m])
  }

  class Database {
    const max: int
    var intake: Intake
    var stream: seq<Item>
    var gists: seq<Gist>
    var missives: Missives
    var reminders: Reminders
    var declines: map<int, int>
    var enrichments: Enrichments
    var diary: Diary
    // the identity columns
    var nextMessage: int
    var nextItem: int
    var nextMissive: int
    var nextReminder: int

    /** Every id handed out so far lies under its column's next one, and the stream is in id order. */
    ghost predicate Valid()
      reads this
    {
      && nextItem > 0 && InOrder(stream)
      && (forall m :: m in intake ==> m < nextMessage)
      && (forall i :: 0 <= i < |stream| ==> stream[i].id < nextItem)
      && (forall x :: x in missives ==> x < nextMissive)
      && (forall r :: r in reminders ==> r < nextReminder)
    }

    /** Every stream row measures something, and every reminder has something to say. */
    ghost predicate Worded()
      reads this
    {
      Spoken(stream) && forall r :: r in reminders ==> reminders[r].body != ""
    }

    /** The store as the kernel machine sees it, no thread holding anything. */
    ghost function Now(): State
      reads this
    {
      State(max, intake, stream, gists, missives, Book(reminders, declines), enrichments, diary,
            map[], map[], map[], map[], map[])
    }

    constructor (max: int)
      ensures Valid() && Worded() && Now() == Empty(max)
    {
      this.max := max;
      intake, stream, gists, missives, reminders, declines, enrichments := map[], [], [], map[], map[], map[], map[];
      diary := Diary(map[], map[], [], []);
      nextMessage, nextItem, nextMissive, nextReminder := 1, 1, 1, 1;
    }

    // ----- the message table

    method RecordMessage(text: string, symbiot: Option<int>, now: real) returns (m: int)
      requires Valid()
      modifies this`intake, this`nextMessage
      ensures Valid() && m == old(nextMessage) && m !in old(intake)
      ensures intake == old(intake)[m := Message(text, symbiot, Received, None, None, 0, now, now, None)]
      ensures intake == old(intake)[m := Fresh(text, symbiot, now)]
    {
      m := nextMessage;
      intake := intake[m := Message(text, symbiot, Received, None, None, 0, now, now, None)];
      nextMessage := nextMessage + 1;
    }

    /** The oldest waiting message that no other claim has locked, taken for work. */
    method ClaimNext(locked: set<int>, now: real) returns (claimed: Option<Holding>)
      modifies this`intake
      ensures claimed.None? ==>
                intake == old(intake) && forall m :: m in intake && m !in locked ==> intake[m].status != Received
      ensures claimed.Some? ==>
                var m := claimed.value.message;
                && m in old(intake) && m !in locked && old(intake)[m].status == Received
                && (forall k :: k in old(intake) && k !in locked && old(intake)[k].status == Received ==> m <= k)
                && claimed.value == Holding(m, old(intake)[m].text, old(intake)[m].symbiot)
                && intake == old(intake)[m := old(intake)[m].(status := Working, updatedAt := now,
                                                              attempts := old(intake)[m].attempts + 1)]
                && Now().(workers := map[0 := claimed.value]) == DoClaim(old(Now()), 0, m, now)
    {
      var waiting := set m | m in intake && m !in locked && intake[m].status == Received;
      if waiting == {} {
        assert forall m :: m in intake && m !in locked && intake[m].status == Received ==> m in waiting;
        return None;
      }
      var m := Least(waiting);
      assert forall k :: k in intake && k !in locked && intake[k].status == Received ==> k in waiting;
      claimed := Some(Holding(m, intake[m].text, intake[m].symbiot));
      intake := intake[m := intake[m].(status := Working, attempts := intake[m].attempts + 1, updatedAt := now)];
    }

    method MarkAnswered(m: int, answer: string, now: real) returns (moved: bool)
      modifies this`intake
      ensures moved == StillWorking(old(Now()), m) == (m in old(intake) && old(intake)[m].status == Working)
      ensures intake == if moved then old(intake)[m := AnsweredWith(old(intake)[m], answer, now)] else old(intake)
    {
      moved := m in intake && intake[m].status == Working;
      if moved {
        intake := intake[m := intake[m].(status := Answered, answer := Some(answer), updatedAt := now)];
      }
    }

    method MarkFailed(m: int, reason: string, now: real) returns (moved: bool)
      modifies this`intake
      ensures moved == StillWorking(old(Now()), m) == (m in old(intake) && old(intake)[m].status == Working)
      ensures intake == if moved then old(intake)[m := FailedWith(old(intake)[m], reason, now)] else old(intake)
    {
      moved := m in intake && intake[m].status == Working;
      if moved {
        intake := intake[m := intake[m].(status := Failed, reason := Some(reason), updatedAt := now)];
      }
    }

    method FailOverdue(ceiling: real, now: real) returns (count: nat)
      modifies this`intake
      ensures intake == OverdueFailed(old(intake), ceiling, now)
      ensures intake.Keys == old(intake).Keys
      ensures forall m {:trigger RowSwept(old(intake), intake, ceiling, now, m)} ::
                m in intake ==> RowSwept(old(intake), intake, ceiling, now, m)
      ensures count == |set m | m in old(intake) && Overdue(old(intake)[m], ceiling, now)|
    {
      var hit := set m | m in intake && intake[m].status == Working && intake[m].updatedAt < now - ceiling;
      assert hit == set m | m in intake && Overdue(intake[m], ceiling, now);
      intake := map m | m in intake ::
        if m in hit then intake[m].(status := Failed, reason := Some(SWEEP_REASON), updatedAt := now) else intake[m];
      count := |hit|;
      forall m | m in intake
        ensures RowSwept(old(intake), intake, ceiling, now, m)
      {
      }
    }

    method RequeueFailed(now: real) returns (count: nat)
      modifies this`intake
      ensures intake == FailedRequeued(old(intake), max, now)
      ensures count == |set m | m in old(intake) && old(intake)[m].status == Failed && old(intake)[m].attempts < max|
    {
      var hit := set m | m in intake && intake[m].status == Failed && intake[m].attempts < max;
      intake := map m | m in intake ::
        if m in hit then intake[m].(status := Received, reason := None, updatedAt := now) else intake[m];
      count := |hit|;
    }

    method AbandonExhausted(now: real) returns (ids: set<int>)
      modifies this`intake
      ensures intake == ExhaustedAbandoned(old(intake), max, now)
      ensures ids == set m | m in old(intake) && old(intake)[m].status == Failed && old(intake)[m].attempts >= max
    {
      ids := set m | m in intake && intake[m].status == Failed && intake[m].attempts >= max;
      intake := map m | m in intake :: if m in ids then intake[m].(status := Abandoned, updatedAt := now)
                                      else intake[m];
    }

    /** One pass of the referee: fail what overstayed, then send every failed row one of its two ways. */
    method ReconcilePass(ceiling: real, now: real) returns (failed: nat, requeued: nat, abandoned: set<int>)
      modifies this`intake
      ensures intake == Reconciled(old(intake), max, ceiling, now)
      ensures forall m {:trigger TryStands(old(intake), intake, ceiling, now, m)} ::
                TryStands(old(intake), intake, ceiling, now, m)
      ensures failed == |set m | m in old(intake) && Overdue(old(intake)[m], ceiling, now)|
      ensures requeued == |set m | m in old(intake) && Retried(old(intake)[m], max, ceiling, now)|
      ensures abandoned == NewlyAbandoned(old(intake), intake)
    {
      SameRetried(intake, max, ceiling, now);
      PassesAbandon(intake, max, ceiling, now);
      TriesStand(intake, max, ceiling, now);
      failed := FailOverdue(ceiling, now);
      requeued := RequeueFailed(now);
      abandoned := AbandonExhausted(now);
    }

    method MarkDelivered(ids: set<int>, now: real) returns (count: nat)
      modifies this`intake
      ensures Now() == OnMessages(old(Now()), Step.MarkDelivered(ids, now))
      ensures forall m :: m in old(intake) ==>
                && m in intake
                && intake[m] == if m in ids && old(intake)[m].status in {Answered, Abandoned}
                                   && old(intake)[m].deliveredAt == None
                                then old(intake)[m].(deliveredAt := Some(now)) else old(intake)[m]
      ensures count == |Deliverable(old(intake), ids)|
    {
      if ids == {} {
        assert Deliverable(intake, ids) <= ids;
        assert DeliveryMarked(intake, ids, now) == intake;
        return 0;
      }
      var hit := Deliverable(intake, ids);
      intake := map m | m in intake :: if m in hit then intake[m].(deliveredAt := Some(now)) else intake[m];
      ghost var marked := DeliveryMarked(old(intake), ids, now);
      forall m | m in old(intake)
        ensures intake[m] == marked[m]
      {
        assert m in hit <==> m in ids && Undelivered(old(intake)[m]);
      }
      assert intake == marked;
      count := |hit|;
    }

    method RequeueOrphans(now: real) returns (count: nat)
      modifies this`intake
      ensures intake == OrphansRequeued(old(intake), max, now)
      ensures count == |set m | m in old(intake) && old(intake)[m].status == Working && old(intake)[m].attempts < max|
    {
      var hit := set m | m in intake && intake[m].status == Working && intake[m].attempts < max;
      intake := map m | m in intake :: if m in hit then intake[m].(status := Received, updatedAt := now) else intake[m];
      count := |hit|;
    }

    method AbandonOrphans(now: real) returns (ids: set<int>)
      modifies this`intake
      ensures intake == OrphansAbandoned(old(intake), max, now)
      ensures forall m :: m in ids <==>
                m in old(intake) && old(intake)[m].status == Working && old(intake)[m].attempts >= max
    {
      ids := set m | m in intake && intake[m].status == Working && intake[m].attempts >= max;
      intake := map m | m in intake ::
        if m in ids
        then intake[m].(status := Abandoned, reason := Some(ORPHAN_ABANDON_REASON), updatedAt := now)
        else intake[m];
    }

    /** Reconcile what a dead process left mid-work: back for a fresh claim, or given up. */
    method RecoverOrphaned(now: real) returns (requeued: nat, abandoned: set<int>)
      modifies this`intake
      ensures Now() == DoRestart(old(Now()), now)
      ensures forall m :: m in intake ==> intake[m].status != Working
      ensures forall m :: m in old(intake) ==>
                && m in intake
                && intake[m] == if old(intake)[m].status != Working then old(intake)[m]
                                else if old(intake)[m].attempts < max
                                then old(intake)[m].(status := Received, updatedAt := now)
                                else old(intake)[m].(status := Abandoned, updatedAt := now,
                                                     reason := Some(ORPHAN_ABANDON_REASON))
      ensures forall m :: m in abandoned <==>
                m in old(intake) && old(intake)[m].status == Working && old(intake)[m].attempts >= max
      ensures requeued
           == |set m | m in old(intake) && old(intake)[m].status == Working && old(intake)[m].attempts < max|
    {
      requeued := RequeueOrphans(now);
      abandoned := AbandonOrphans(now);
    }

    /** The oldest settled message of the symbiot's that no fact bears. */
    method NextUningested() returns (next: Option<int>)
      ensures next.Some? ==> Unfiled(Now(), next.value) && forall m :: Unfiled(Now(), m) ==> next.value <= m
      ensures next.None? ==> forall m :: !Unfiled(Now(), m)
      ensures forall m :: m in intake && intake[m].symbiot.Some? && m !in diary.filed
                          && (intake[m].status == Answered || intake[m].status == Abandoned) ==>
                next.Some? && next.value <= m
      ensures next.Some? ==>
                && next.value in intake && intake[next.value].symbiot.Some? && next.value !in diary.filed
                && (intake[next.value].status == Answered || intake[next.value].status == Abandoned)
    {
      var unfiled := set m | m in intake && intake[m].symbiot.Some? && intake[m].status in {Answered, Abandoned}
                             && m !in diary.filed;
      assert forall m :: Unfiled(Now(), m) <==> m in unfiled;
      assert forall m :: m in intake && intake[m].symbiot.Some? && m !in diary.filed
                         && (intake[m].status == Answered || intake[m].status == Abandoned) ==>
               m in unfiled;
      next := if unfiled == {} then None else Some(Least(unfiled));
    }

    // ----- the stream

    /** Mirror one line that has just been written durably elsewhere. */
    method RecordUtterance(symbiot: int, line: Line, text: string, now: real) returns (item: int)
      requires Valid()
      modifies this`stream, this`nextItem
      ensures Valid() && item == old(nextItem) && nextItem == item + 1 && CanAppend(old(stream), item, symbiot)
      ensures stream == old(stream) + [Item(item, symbiot, line, PromptBudget.CountTokens(text), now)]
      ensures old(Worded()) && text != "" ==> Worded()
    {
      item := nextItem;
      AppendInOrder(stream, Item(item, symbiot, line, PromptBudget.CountTokens(text), now));
      stream := stream + [Item(item, symbiot, line, PromptBudget.CountTokens(text), now)];
      nextItem := nextItem + 1;
    }

    /** One /intake request: an empty line is refused at the door; for any other the message and its mirror stand or
        fall together. */
    method Receive(text: string, sender: Option<int>, now: real) returns (received: Option<int>)
      requires Valid()
      modifies this`intake, this`stream, this`nextMessage, this`nextItem
      ensures Valid() && (old(Worded()) ==> Worded())
      ensures Now() == DoReceive(old(Now()), old(nextMessage), text, sender, old(nextItem), now)
      ensures received == if text == "" then None else Some(old(nextMessage))
      ensures received.Some? ==>
                && received.value !in old(intake) && received.value in intake
                && intake[received.value].status == Status.Received
                && intake[received.value].text == text && intake[received.value].symbiot == sender
                && (sender.Some? ==> HasLine(stream, Said(received.value)))
    {
      if text == "" {
        return None;
      }
      var m := RecordMessage(text, sender, now);
      if sender.Some? {
        var item := RecordUtterance(sender.value, Said(m), text, now);
        assert stream[|stream| - 1].line == Said(m);
      }
      received := Some(m);
    }

    /** The answer, and its mirror if this report is the one that answered an authed message. */
    method ReportAnswer(h: Holding, answer: string, now: real) returns (answered: bool)
      requires Valid() && answer != ""
      modifies this`intake, this`stream, this`nextItem
      ensures Valid() && (old(Worded()) ==> Worded())
      ensures Now() == DoFinish(old(Now()).(workers := map[0 := h]), 0, Completed(answer), old(nextItem), now)
      ensures answered <==> StillWorking(old(Now()), h.message)
    {
      answered := MarkAnswered(h.message, answer, now);
      if answered && h.symbiot.Some? {
        var item := RecordUtterance(h.symbiot.value, Replied(h.message), answer, now);
      }
      assert map[0 := h] - {0} == map[];
    }

    /** A worker's second transaction: the outcome it reports, and the answer's mirror if this report is the one that
        answered an authed message.  The schema every reply is held to keeps a completed one from being empty. */
    method Report(h: Holding, report: Report, now: real) returns (answered: bool)
      requires Valid() && (report.Completed? ==> report.answer != "")
      modifies this`intake, this`stream, this`nextItem
      ensures Valid() && (old(Worded()) ==> Worded())
      ensures Now() == DoFinish(old(Now()).(workers := map[0 := h]), 0, report, old(nextItem), now)
      ensures answered <==> report.Completed? && StillWorking(old(Now()), h.message)
    {
      answered := false;
      match report {
        case Completed(answer) =>
          answered := ReportAnswer(h, answer, now);
        case TimedOut =>
          var moved := MarkFailed(h.message, "deadline exceeded", now);
        case Crashed(trace) =>
          var moved := MarkFailed(h.message, trace, now);
      }
      assert map[0 := h] - {0} == map[];
    }

    // ----- the memory gradient

    /** Append a folded Gist, which becomes the symbiot's current one. */
    method RecordGist(symbiot: int, text: string, cutoff: int, absorbed: seq<Item>)
      modifies this`gists
      ensures gists == old(gists) + [Gist(symbiot, text, cutoff, absorbed)]
    {
      gists := gists + [Gist(symbiot, text, cutoff, absorbed)];
    }

    /** The fold of the symbiot's overflow at one budget, if there is any. */
    method FoldAt(symbiot: int, budget: int, text: string) returns (folded: bool)
      modifies this`gists
      ensures folded <==> HasFold(stream, old(gists), symbiot, budget)
      ensures !folded ==> gists == old(gists)
      ensures folded ==>
                var (turns, reached) := PendingForFold(stream, symbiot, budget, Cutoff(old(gists), symbiot));
                gists == old(gists) + [Folded(old(gists), symbiot, turns, reached, text)]
      ensures Now() == FoldSteps(old(Now()), symbiot, budget, text)
    {
      FoldIsItsSteps(Now(), symbiot, budget, text);
      var gist := CurrentGist(gists, symbiot);
      var cutoff := if gist.Some? then gist.value.cutoff else 0;
      var (turns, reached) := PendingForFold(stream, symbiot, budget, cutoff);
      folded := turns != [];
      if folded {
        RecordGist(symbiot, text, reached, (if gist.Some? then gist.value.absorbed else []) + turns);
      }
    }

    /** Trim one over-budget tail.  There is a fold to make exactly when the trigger names someone, and what it leaves
        fits the budget. */
    method CompressOne(budget: int, text: string) returns (folded: bool)
      requires budget >= 0 && Valid()
      modifies this`gists
      ensures folded <==> NextToFold(stream, old(gists), budget).Some?
      ensures !folded ==> gists == old(gists)
      ensures folded ==>
                var symbiot := NextToFold(stream, old(gists), budget).value;
                && Total(Tail(stream, symbiot, Cutoff(gists, symbiot))) <= budget
                && Cutoff(gists, symbiot) > Cutoff(old(gists), symbiot)
                && CurrentGist(gists, symbiot).Some? && CurrentGist(gists, symbiot).value.text == text
      ensures (forall s :: Covers(stream, old(gists), s)) ==> forall s :: Covers(stream, gists, s)
    {
      var next := NextToFold(stream, gists, budget);
      if next.None? {
        return false;
      }
      TriggerFindsWork(stream, gists, budget, next.value);
      folded := FoldAt(next.value, budget, text);
      FoldedWell(stream, old(gists), next.value, budget, text);
    }

    /** Collapse one gone-quiet tail at a zero budget.  There is one to collapse exactly when silence picks someone, and
        it leaves that symbiot nothing verbatim, so that no silence picks them again until there is something new. */
    method CollapseIdleOne(idle: real, now: real, text: string) returns (folded: bool)
      requires Valid() && Worded()
      modifies this`gists
      ensures folded <==> NextToCollapse(stream, old(gists), idle, now).Some?
      ensures folded <==> exists s :: Silent(stream, old(gists), s, idle, now)
      ensures folded ==> Silent(stream, old(gists), NextToCollapse(stream, old(gists), idle, now).value, idle, now)
      ensures !folded ==> gists == old(gists)
      ensures folded ==>
                var symbiot := NextToCollapse(stream, old(gists), idle, now).value;
                && Tail(stream, symbiot, Cutoff(gists, symbiot)) == []
                && Absorbed(gists, symbiot)
                   == Absorbed(old(gists), symbiot) + Tail(stream, symbiot, Cutoff(old(gists), symbiot))
                && Cutoff(gists, symbiot) > Cutoff(old(gists), symbiot)
                && CurrentGist(gists, symbiot).Some? && CurrentGist(gists, symbiot).value.text == text
                && forall i: real, t: real :: NextToCollapse(stream, gists, i, t) != Some(symbiot)
      ensures (forall s :: Covers(stream, old(gists), s)) ==> forall s :: Covers(stream, gists, s)
    {
      var next := NextToCollapse(stream, gists, idle, now);
      SilentIsPicked(stream, gists, idle, now);
      if next.None? {
        return false;
      }
      ZeroBudgetTakesAll(stream, next.value, Cutoff(gists, next.value));
      folded := FoldAt(next.value, 0, text);
      FoldedWell(stream, old(gists), next.value, 0, text);
      CollapsedWell(stream, old(gists), next.value, text);
    }

    // ----- follow-ups

    /** Record every member of a burst, the last carrying the outcome.  The first one that is there already breaks the
        UNIQUE intake_id. */
    method RecordBurst(members: seq<int>, symbiot: int, missive: Option<int>, echo: bool) returns (ok: bool)
      requires members != []
      modifies this`enrichments
      ensures ok == Unrecorded(old(enrichments), members)
      ensures ok ==> enrichments == RecordedAll(old(enrichments), members, symbiot, missive, echo,
                members[|members| - 1])
    {
      var anchor := members[|members| - 1];
      for k := 0 to |members|
        invariant Unrecorded(old(enrichments), members[..k])
        invariant enrichments == RecordedAll(old(enrichments), members[..k], symbiot, missive, echo, anchor)
      {
        var m: int := members[k];
        RecordedAt(old(enrichments), members[..k], symbiot, missive, echo, anchor, m);
        if m in enrichments {
          return false;
        }
        assert members[..k + 1][..k] == members[..k];
        enrichments := enrichments[m := if m == anchor then Enrichment(symbiot, missive.Some?, missive, echo, anchor)
                                        else Enrichment(symbiot, false, None, false, anchor)];
      }
      assert members[..|members|] == members;
      ok := true;
    }

    method RaiseFor(symbiot: int, body: string, origin: Origin) returns (x: int)
      requires Valid()
      modifies this`missives, this`nextMissive
      ensures Valid() && x == old(nextMissive) && x !in old(missives) && nextMissive == x + 1
      ensures missives == old(missives)[x := Missive(symbiot, body, origin)]
    {
      x := nextMissive;
      missives := missives[x := Missive(symbiot, body, origin)];
      nextMissive := nextMissive + 1;
    }

    /** A line the kernel says on its own: the missive, and its mirror on the stream. */
    method Say(symbiot: int, body: string, origin: Origin, now: real) returns (x: int)
      requires Valid()
      modifies this`missives, this`stream, this`nextMissive, this`nextItem
      ensures Valid() && (old(Worded()) && body != "" ==> Worded())
      ensures x == old(nextMissive) && x !in old(missives) && nextMissive >= x
      ensures CanAppend(old(stream), old(nextItem), symbiot) && nextItem >= old(nextItem)
      ensures missives == old(missives)[x := Missive(symbiot, body, origin)]
      ensures stream == old(stream) + [RaisedItem(old(nextItem), symbiot, x, body, now)]
    {
      x := RaiseFor(symbiot, body, origin);
      var item := RecordUtterance(symbiot, Raised(x), body, now);
    }

    /** The next ids are taken by no row. */
    lemma NextAreFree(symbiot: int)
      requires Valid()
      ensures nextMissive !in missives && CanAppend(stream, nextItem, symbiot)
    {
      assert forall x :: x in missives ==> x != nextMissive;
      assert forall i :: 0 <= i < |stream| ==> stream[i].id != nextItem;
    }

    /** Raise the follow-up and mirror it, when the pass has one to say. */
    method Surface(anchor: int, symbiot: int, speak: bool, body: string, now: real) returns (sent: Option<int>)
      requires Valid() && (speak ==> body != "")
      modifies this`missives, this`stream, this`nextMissive, this`nextItem
      ensures Valid() && (old(Worded()) ==> Worded())
      ensures nextMissive >= old(nextMissive) && nextItem >= old(nextItem)
      ensures sent == if speak then Some(old(nextMissive)) else None
      ensures missives == if speak then old(missives)[old(nextMissive) := Missive(symbiot, body, FollowUp(anchor))]
                          else old(missives)
      ensures stream == if speak then old(stream) + [RaisedItem(old(nextItem), symbiot, old(nextMissive), body, now)]
                        else old(stream)
    {
      sent := None;
      if speak {
        var x := Say(symbiot, body, FollowUp(anchor), now);
        sent := Some(x);
      }
    }

    /** What a pass writes before its transaction ends. */
    method WritePass(members: seq<int>, symbiot: int, speaks: bool, echo: bool, body: string, now: real)
        returns (ok: bool, sent: Option<int>)
      requires Valid() && members != [] && (speaks ==> body != "")
      modifies this`missives, this`stream, this`enrichments, this`nextMissive, this`nextItem
      ensures Valid() && (old(Worded()) ==> Worded())
      ensures nextMissive >= old(nextMissive) && nextItem >= old(nextItem)
      ensures ok == Unrecorded(old(enrichments), members)
      ensures sent == if speaks && !echo then Some(old(nextMissive)) else None
      ensures ok ==> Now() == PassWritten(old(Now()), members, symbiot, speaks, echo, body,
                                          old(nextMissive), old(nextItem), now)
    {
      sent := Surface(members[|members| - 1], symbiot, speaks && !echo, body, now);
      ok := RecordBurst(members, symbiot, sent, speaks && echo);
    }

    /** What a pass leaves when its transaction has committed or rolled back. */
    method TryPass(members: seq<int>, symbiot: int, speaks: bool, echo: bool, body: string, now: real)
        returns (sent: Option<int>)
      requires Valid() && members != [] && (speaks ==> body != "")
      modifies this`missives, this`stream, this`enrichments, this`nextMissive, this`nextItem
      ensures Valid() && (old(Worded()) ==> Worded())
      ensures Now() == if Unrecorded(old(enrichments), members)
                       then PassWritten(old(Now()), members, symbiot, speaks, echo, body,
                                        old(nextMissive), old(nextItem), now)
                       else old(Now())
      ensures sent.Some? <==> speaks && !echo && Unrecorded(old(enrichments), members)
    {
      var savedMissives, savedStream, savedEnrichments := missives, stream, enrichments;
      var ok;
      ok, sent := WritePass(members, symbiot, speaks, echo, body, now);
      if !ok {
        missives, stream, enrichments, sent := savedMissives, savedStream, savedEnrichments, None;
      }
    }

    /** The pass's one transaction: the missive, its stream row and every member's row commit together, or, when a
        member was recorded meanwhile, not at all.  A gate that surfaces nothing to say counts as silent. */
    method EnrichOne(members: seq<int>, symbiot: int, surface: bool, echo: bool, body: string, now: real)
        returns (sent: Option<int>)
      requires Valid() && members != []
      modifies this`missives, this`stream, this`enrichments, this`nextMissive, this`nextItem
      ensures Valid() && (old(Worded()) ==> Worded())
      ensures Now() == DoCommitBurst(old(Now()).(passes := map[0 := Pass(symbiot, members, true)]), 0,
                                     surface, echo, body, old(nextMissive), old(nextItem), now)
      ensures sent.Some? <==> surface && body != "" && !echo && Unrecorded(old(enrichments), members)
    {
      NextAreFree(symbiot);
      sent := TryPass(members, symbiot, surface && body != "", echo, body, now);
      PassCommits(old(Now()), members, symbiot, surface, echo, body, old(nextMissive), old(nextItem), now);
    }

    /** The kernel reaching out on its own, with something to say or not. */
    method Deliver(symbiot: int, body: string, now: real) returns (x: int)
      requires Valid()
      modifies this`missives, this`stream, this`nextMissive, this`nextItem
      ensures Valid() && (old(Worded()) && body != "" ==> Worded())
      ensures x == old(nextMissive) && missives == old(missives)[x := Missive(symbiot, body, Told)]
      ensures stream == old(stream) + [RaisedItem(old(nextItem), symbiot, x, body, now)]
      ensures body != "" ==> Now() == DoTell(old(Now()), x, symbiot, body, old(nextItem), now)
    {
      x := Say(symbiot, body, Told, now);
    }

    // ----- reminders

    ghost function Reminding(): Book
      reads this
    {
      Book(reminders, declines)
    }

    method Create(symbiot: int, body: string, fireAt: real, message: Option<int>) returns (r: Option<int>)
      requires Valid()
      modifies this`reminders, this`nextReminder
      ensures Valid() && (old(Worded()) && body != "" ==> Worded())
      ensures reminders == Created(old(reminders), old(nextReminder), symbiot, body, fireAt, message)
      ensures r.Some? <==> !Conflicts(old(reminders), message)
      ensures r.None? <==> message.Some? && exists q :: q in old(reminders) && old(reminders)[q].intake == message
      ensures r.Some? ==>
                reminders == old(reminders)[r.value := Reminder(message, symbiot, body, fireAt, None, None)]
      ensures r.Some? ==> r.value !in old(reminders) && r.value in reminders
      ensures message.None? && body != "" ==>
                Now() == DoRemind(old(Now()), old(nextReminder), symbiot, body, fireAt)
    {
      var id := nextReminder;
      nextReminder := nextReminder + 1;
      if message.Some? && exists q :: q in reminders && reminders[q].intake == message {
        return None;
      }
      reminders := reminders[id := Reminder(message, symbiot, body, fireAt, None, None)];
      r := Some(id);
    }

    method Cancel(symbiot: int, r: int, now: real) returns (landed: bool)
      modifies this`reminders
      ensures landed == Scoped(old(reminders), symbiot, r)
      ensures landed <==> r in old(reminders) && old(reminders)[r].symbiot == symbiot
                          && old(reminders)[r].firedAt == None && old(reminders)[r].cancelledAt == None
      ensures reminders == Cancelled(old(reminders), symbiot, r, now)
      ensures landed ==> reminders[r] == old(reminders)[r].(cancelledAt := Some(now))
      ensures Now() == DoCancel(old(Now()), r, symbiot, now)
      ensures old(Worded()) ==> Worded()
    {
      landed := r in reminders && reminders[r].symbiot == symbiot
             && reminders[r].firedAt.None? && reminders[r].cancelledAt.None?;
      if landed {
        reminders := reminders[r := reminders[r].(cancelledAt := Some(now))];
      }
    }

    method Update(symbiot: int, r: int, body: Option<string>, fireAt: Option<real>) returns (landed: bool)
      modifies this`reminders
      ensures landed == (Scoped(old(reminders), symbiot, r) && (body.Some? || fireAt.Some?))
      ensures landed <==> (body.Some? || fireAt.Some?) && r in old(reminders) && old(reminders)[r].symbiot == symbiot
                          && old(reminders)[r].firedAt == None && old(reminders)[r].cancelledAt == None
      ensures landed ==>
                && r in old(reminders) && r in reminders
                && (reminders[r].body == if body.Some? then body.value else old(reminders)[r].body)
                && (reminders[r].fireAt == if fireAt.Some? then fireAt.value else old(reminders)[r].fireAt)
      ensures reminders == Edited(old(reminders), symbiot, r, body, fireAt)
      ensures body != Some("") ==> Now() == DoEdit(old(Now()), r, symbiot, body, fireAt)
      ensures old(Worded()) && body != Some("") ==> Worded()
    {
      if body.None? && fireAt.None? {
        return false;
      }
      landed := r in reminders && reminders[r].symbiot == symbiot
             && reminders[r].firedAt.None? && reminders[r].cancelledAt.None?;
      if landed {
        var row := reminders[r];
        reminders := reminders[r := row.(body := if body.Some? then body.value else row.body,
                                         fireAt := if fireAt.Some? then fireAt.value else row.fireAt)];
      }
    }

    method RecordDecline(message: int, r: int)
      modifies this`declines
      ensures declines == Declined(old(declines), message, r)
    {
      if message !in declines {
        declines := declines[message := r];
      }
    }

    /** The executor that sets a reminder: decline what is held already, ask, refuse, or write. */
    method ExecuteSet(symbiot: int, message: int, meant: Option<int>, body: string, fireAt: Option<real>, now: real)
        returns (outcome: ToolOutcome)
      requires Valid()
      modifies this`reminders, this`declines, this`nextReminder
      ensures Valid() && (old(Worded()) ==> Worded())
      ensures (Reminding(), outcome)
           == Schedule(old(Reminding()), symbiot, message, old(nextReminder), meant, body, fireAt, now)
    {
      if meant.Some? && meant.value in reminders && reminders[meant.value].symbiot == symbiot {
        var held := reminders[meant.value];
        if held.firedAt.None? && held.cancelledAt.None? {
          RecordDecline(message, meant.value);
          return Satisfied;
        }
      }
      if body == "" || fireAt.None? {
        return Unclear;
      }
      if fireAt.value <= now {
        return Unable(GoneBy);
      }
      var r := Create(symbiot, body, fireAt.value, Some(message));
      outcome := Acted;
    }

    method ExecuteCancel(symbiot: int, meant: Option<int>, now: real) returns (outcome: ToolOutcome)
      modifies this`reminders
      ensures (Reminding(), outcome) == CallOff(old(Reminding()), symbiot, meant, now)
      ensures old(Worded()) ==> Worded()
    {
      if meant.None? {
        return Unclear;
      }
      if meant.value !in reminders || reminders[meant.value].symbiot != symbiot {
        return Unable(OffRecord);
      }
      var held := reminders[meant.value];
      var landed := Cancel(symbiot, meant.value, now);
      outcome := if landed then Acted else Unable(if held.firedAt.Some? then HasFired else CalledOff);
    }

    method ExecuteUpdate(symbiot: int, meant: Option<int>, body: string, fireAt: Option<real>, now: real)
        returns (outcome: ToolOutcome)
      modifies this`reminders
      ensures (Reminding(), outcome) == Change(old(Reminding()), symbiot, meant, body, fireAt, now)
      ensures old(Worded()) ==> Worded()
    {
      if meant.None? {
        return Unclear;
      }
      var said := if body == "" then None else Some(body);
      if said.None? && fireAt.None? {
        return Unclear;
      }
      if fireAt.Some? && fireAt.value <= now {
        return Unable(GoneBy);
      }
      if meant.value !in reminders || reminders[meant.value].symbiot != symbiot {
        return Unable(OffRecord);
      }
      var held := reminders[meant.value];
      var landed := Update(symbiot, meant.value, said, fireAt);
      outcome := if landed then Acted else Unable(if held.firedAt.Some? then HasFired else CalledOff);
    }

    /** How a claimed message is answered: the ordinary reply, unless a tool was shortlisted for a known symbiot, a
        completed decision named one, and its executor then ran, once, outside any child.  The look step fails open:
        no hook, hook failure or judging failure can fail the message or keep the executor from running; it only
        leaves the executor without a verdict.  An executor that raises leaves the store as it was. */
    method Answer(
      h: Holding, shortlisted: bool, decided: Child<Decision>, look: Look, raises: bool, plain: Report, spoken: Report,
      now: real) returns (report: Report, ran: bool)
      requires Valid()
      modifies this`reminders, this`declines, this`nextReminder
      ensures Valid() && (old(Worded()) ==> Worded())
      ensures ran <==> h.symbiot.Some? && shortlisted && decided.Done? && decided.value != NoTool
      ensures report ==
                if h.symbiot.None? || !shortlisted then plain
                else match decided
                     case Overran => TimedOut
                     case Died(trace) => Crashed(trace)
                     case Done(decision) =>
                       if decision == NoTool then plain
                       else if raises then Crashed("the executor raised") else spoken
      ensures !ran || raises || CallFor(decided.value, look, old(nextReminder)).None? ==> Now() == old(Now())
      ensures ran && !raises ==>
                Reminding() == Dispatched(old(Reminding()), h.symbiot.value, h.message, decided.value,
                                          if look.Judged? && look.verdict.Done? then look.verdict.value else None,
                                          old(nextReminder), now)
      ensures ran && !raises && CallFor(decided.value, look, old(nextReminder)).Some? ==>
                Now() == DoAct(old(Now()).(workers := map[0 := h]), 0,
                               CallFor(decided.value, look, old(nextReminder)).value, now).(workers := map[])
    {
      ran := false;
      if h.symbiot.None? || !shortlisted {
        return plain, ran;
      }
      match decided {
        case Overran =>
          return TimedOut, ran;
        case Died(trace) =>
          return Crashed(trace), ran;
        case Done(decision) =>
          if decision == NoTool {
            return plain, ran;
          }
          var verdict := None;
          if look.Judged? && look.verdict.Done? {
            verdict := look.verdict.value;
          }
          ran := true;
          if raises {
            return Crashed("the executor raised"), ran;
          }
          var outcome := Execute(h.symbiot.value, h.message, decision, verdict, now);
          report := spoken;
      }
    }

    /** Dispatch to the executor the decision names. */
    method Execute(symbiot: int, message: int, decision: Decision, meant: Option<int>, now: real)
        returns (outcome: Option<ToolOutcome>)
      requires Valid() && decision != NoTool
      modifies this`reminders, this`declines, this`nextReminder
      ensures Valid() && (old(Worded()) ==> Worded())
      ensures match decision
              case NoTool => true
              case SetReminder(body, fireAt) =>
                Reminding()
                == Schedule(old(Reminding()), symbiot, message, old(nextReminder), meant, body, fireAt, now).0
              case CancelReminder => Reminding() == CallOff(old(Reminding()), symbiot, meant, now).0
              case ReadReminders => Reminding() == old(Reminding())
              case UpdateReminder(body, fireAt) =>
                Reminding() == Change(old(Reminding()), symbiot, meant, body, fireAt, now).0
      ensures outcome.None? <==> decision == ReadReminders
    {
      outcome := None;
      match decision {
        case SetReminder(body, fireAt) =>
          var o := ExecuteSet(symbiot, message, meant, body, fireAt, now);
          outcome := Some(o);
        case CancelReminder =>
          var o := ExecuteCancel(symbiot, meant, now);
          outcome := Some(o);
        case ReadReminders =>
        case UpdateReminder(body, fireAt) =>
          var o := ExecuteUpdate(symbiot, meant, body, fireAt, now);
          outcome := Some(o);
      }
    }

    /** A soonest live reminder that has come due and that no other sweep has locked. */
    method ClaimDue(locked: set<int>, now: real) returns (due: Option<int>)
      ensures due.None? ==>
                forall r :: r in reminders && r !in locked
                            && reminders[r].firedAt == None && reminders[r].cancelledAt == None ==>
                  now < reminders[r].fireAt
      ensures due.Some? ==>
                && due.value in reminders && due.value !in locked && reminders[due.value].fireAt <= now
                && reminders[due.value].firedAt == None && reminders[due.value].cancelledAt == None
                && forall r :: r in reminders && r !in locked
                               && reminders[r].firedAt == None && reminders[r].cancelledAt == None ==>
                     reminders[due.value].fireAt <= reminders[r].fireAt
    {
      var waiting := set r | r in reminders && r !in locked
                             && reminders[r].firedAt.None? && reminders[r].cancelledAt.None?
                             && reminders[r].fireAt <= now;
      assert forall r :: r in reminders && r !in locked && Due(reminders[r], now) ==> r in waiting;
      if waiting == {} {
        return None;
      }
      ghost var first := SoonestExists(waiting, reminders);
      assert exists r: int :: r in waiting && forall q :: q in waiting ==> reminders[r].fireAt <= reminders[q].fireAt;
      var r: int :| r in waiting && forall q :: q in waiting ==> reminders[r].fireAt <= reminders[q].fireAt;
      due := Some(r);
    }

    /** Stamp a reminder by its id, whatever state it is in. */
    method MarkFired(r: int, now: real)
      modifies this`reminders
      ensures reminders == Stamped(old(reminders), r, now)
      ensures old(Worded()) ==> Worded()
    {
      if r in reminders {
        reminders := reminders[r := reminders[r].(firedAt := Some(now))];
      }
    }

    /** Say a claimed reminder's line and stamp it. */
    method Fire(r: int, now: real)
      requires Valid() && r in reminders
      modifies this`reminders, this`missives, this`stream, this`nextMissive, this`nextItem
      ensures Valid() && (old(Worded()) ==> Worded())
      ensures Now() == DoCommitFire(old(Now()).(firers := map[0 := r]), 0, old(nextMissive), old(nextItem), now)
    {
      ghost var before := Now();
      var row := reminders[r];
      var x := Say(row.symbiot, row.body, Fired(r), now);
      MarkFired(r, now);
      FireCommits(before, r, x, old(nextItem), now);
    }

    /** Fire one due reminder: the claim, the missive, its stream row and the stamp commit together. */
    method FireOne(locked: set<int>, now: real) returns (fired: Option<int>)
      requires Valid()
      modifies this`reminders, this`missives, this`stream, this`nextMissive, this`nextItem
      ensures Valid() && (old(Worded()) ==> Worded())
      ensures fired.None? ==> Now() == old(Now())
      ensures fired.None? ==>
                forall r :: r in reminders && r !in locked
                            && reminders[r].firedAt == None && reminders[r].cancelledAt == None ==>
                  now < reminders[r].fireAt
      ensures fired.Some? ==>
                && fired.value in old(reminders) && fired.value !in locked && Due(old(reminders)[fired.value], now)
                && old(reminders)[fired.value].fireAt <= now
                && fired.value in reminders
                && reminders[fired.value] == old(reminders)[fired.value].(firedAt := Some(now))
                && Now() == DoCommitFire(old(Now()).(firers := map[0 := fired.value]), 0,
                                         old(nextMissive), old(nextItem), now)
    {
      fired := ClaimDue(locked, now);
      if fired.Some? {
        Fire(fired.value, now);
      }
    }
  }

  // ----- what a pass leaves, with no other thread in flight

  ghost function PassWritten(
    s: State, members: seq<int>, symbiot: int, speaks: bool, echo: bool, body: string, x: int, item: int, now: real)
      : State
    requires members != []
  {
    var anchor := members[|members| - 1];
    if speaks && !echo then
      s.(missives := s.missives[x := Missive(symbiot, body, FollowUp(anchor))],
         stream := s.stream + [RaisedItem(item, symbiot, x, body, now)],
         enrichments := RecordedAll(s.enrichments, members, symbiot, Some(x), false, anchor))
    else s.(enrichments := RecordedAll(s.enrichments, members, symbiot, None, speaks && echo, anchor))
  }

  lemma PassCommits(
    s: State, members: seq<int>, symbiot: int, surface: bool, echo: bool, body: string, x: int, item: int, now: real)
    requires s.passes == map[] && members != [] && x !in s.missives && CanAppend(s.stream, item, symbiot)
    ensures DoCommitBurst(s.(passes := map[0 := Pass(symbiot, members, true)]), 0, surface, echo, body, x, item, now)
            == if Unrecorded(s.enrichments, members)
               then PassWritten(s, members, symbiot, Speaks(surface, body), echo, body, x, item, now)
               else s
  {
    var passes := map[0 := Pass(symbiot, members, true)];
    assert passes - {0} == map[];
    if Unrecorded(s.enrichments, members) {
      if Speaks(surface, body) && !echo {
        assert DoCommitBurst(s.(passes := passes), 0, surface, echo, body, x, item, now)
            == SpokenCommit(s.(passes := passes), 0, body, x, item, now);
      } else {
        assert DoCommitBurst(s.(passes := passes), 0, surface, echo, body, x, item, now)
            == SilentCommit(s.(passes := passes), 0, Speaks(surface, body) && echo);
      }
    }
  }

  lemma FireCommits(s: State, r: int, x: int, item: int, now: real)
    requires s.firers == map[] && r in s.book.reminders && x !in s.missives
    requires CanAppend(s.stream, item, s.book.reminders[r].symbiot)
    ensures var row := s.book.reminders[r];
            DoCommitFire(s.(firers := map[0 := r]), 0, x, item, now)
            == s.(missives := s.missives[x := Missive(row.symbiot, row.body, Fired(r))],
                  stream := s.stream + [RaisedItem(item, row.symbiot, x, row.body, now)],
                  book := s.book.(reminders := Stamped(s.book.reminders, r, now)))
  {
    assert map[0 := r] - {0} == map[];
  }

  // ----- what a fold leaves

  /** A fold's lock, its two reads and its commit, with nothing in between; the commit finds nothing to do where there
      was no turn to fold. */
  ghost function FoldSteps(s: State, symbiot: int, budget: int, text: string): State {
    DoCommitFold(DoReadPending(DoReadGist(DoLockFold(s, 0, symbiot), 0), 0, budget), 0, text)
  }

  lemma FoldReads(s: State, symbiot: int)
    requires s.folders == map[]
    ensures DoReadGist(DoLockFold(s, 0, symbiot), 0)
         == s.(folders := map[0 := HasGist(symbiot, CurrentGist(s.gists, symbiot))])
  {
    assert DoLockFold(s, 0, symbiot) == s.(folders := map[0 := Owned(symbiot)]);
  }

  lemma FoldTakes(s: State, symbiot: int, prior: Option<Gist>, budget: int)
    requires s.folders == map[0 := HasGist(symbiot, prior)]
    ensures var (turns, reached) := PendingForFold(s.stream, symbiot, budget, CutoffOf(prior));
            DoReadPending(s, 0, budget)
            == s.(folders := if turns == [] then map[] else map[0 := HasTurns(symbiot, prior, turns, reached)])
  {
    assert s.folders - {0} == map[];
  }

  lemma FoldCommits(s: State, symbiot: int, prior: Option<Gist>, turns: seq<Item>, reached: int, text: string)
    requires s.folders == map[0 := HasTurns(symbiot, prior, turns, reached)]
    ensures DoCommitFold(s, 0, text)
         == s.(folders := map[], gists := s.gists + [Gist(symbiot, text, reached, AbsorbedBy(prior) + turns)])
  {
    assert s.folders - {0} == map[];
  }

  lemma FoldIsItsSteps(s: State, symbiot: int, budget: int, text: string)
    requires s.folders == map[]
    ensures var (turns, reached) := PendingForFold(s.stream, symbiot, budget, Cutoff(s.gists, symbiot));
            FoldSteps(s, symbiot, budget, text)
            == if turns == [] then s
               else s.(gists := s.gists + [Folded(s.gists, symbiot, turns, reached, text)])
  {
    var prior := CurrentGist(s.gists, symbiot);
    var (turns, reached) := PendingForFold(s.stream, symbiot, budget, CutoffOf(prior));
    FoldReads(s, symbiot);
    FoldTakes(s.(folders := map[0 := HasGist(symbiot, prior)]), symbiot, prior, budget);
    if turns != [] {
      FoldCommits(s.(folders := map[0 := HasTurns(symbiot, prior, turns, reached)]), symbiot, prior, turns, reached,
                  text);
    }
  }

  /** Every symbiot's reader stays whole through one symbiot's fold. */
  lemma FoldedCovers(stream: seq<Item>, gists: seq<Gist>, symbiot: int, budget: int, text: string, s: int)
    requires InOrder(stream) && HasFold(stream, gists, symbiot, budget)
    requires Covers(stream, gists, symbiot) && Covers(stream, gists, s)
    ensures var (turns, reached) := PendingForFold(stream, symbiot, budget, Cutoff(gists, symbiot));
            Covers(stream, gists + [Folded(gists, symbiot, turns, reached, text)], s)
  {
    if s == symbiot {
      FoldCovers(stream, gists, symbiot, budget, text);
    } else {
      var (turns, reached) := PendingForFold(stream, symbiot, budget, Cutoff(gists, symbiot));
      GistNext(gists, Folded(gists, symbiot, turns, reached, text), s);
    }
  }

  lemma FoldedCutoff(stream: seq<Item>, gists: seq<Gist>, symbiot: int, budget: int, text: string)
    requires InOrder(stream) && budget >= 0 && HasFold(stream, gists, symbiot, budget)
    ensures var (turns, reached) := PendingForFold(stream, symbiot, budget, Cutoff(gists, symbiot));
            && Cutoff(gists + [Folded(gists, symbiot, turns, reached, text)], symbiot) == reached
            && reached > Cutoff(gists, symbiot)
            && Total(Tail(stream, symbiot, reached)) <= budget
  {
    var cutoff := Cutoff(gists, symbiot);
    var (turns, reached) := PendingForFold(stream, symbiot, budget, cutoff);
    GistNext(gists, Folded(gists, symbiot, turns, reached, text), symbiot);
    FoldFits(stream, symbiot, budget, cutoff);
    PendingIs(stream, symbiot, budget, cutoff);
    TailHoldsAt(stream, symbiot, cutoff, Cut(Tail(stream, symbiot, cutoff), budget) - 1);
  }

  lemma FoldedWell(stream: seq<Item>, gists: seq<Gist>, symbiot: int, budget: int, text: string)
    requires InOrder(stream) && budget >= 0 && HasFold(stream, gists, symbiot, budget)
    ensures var (turns, reached) := PendingForFold(stream, symbiot, budget, Cutoff(gists, symbiot));
            var gists' := gists + [Folded(gists, symbiot, turns, reached, text)];
            && Cutoff(gists', symbiot) == reached && reached > Cutoff(gists, symbiot)
            && Total(Tail(stream, symbiot, reached)) <= budget
            && ((forall s :: Covers(stream, gists, s)) ==> forall s :: Covers(stream, gists', s))
  {
    FoldedCutoff(stream, gists, symbiot, budget, text);
    var (turns, reached) := PendingForFold(stream, symbiot, budget, Cutoff(gists, symbiot));
    var longer := gists + [Folded(gists, symbiot, turns, reached, text)];
    if forall s :: Covers(stream, gists, s) {
      forall s
        ensures Covers(stream, longer, s)
      {
        FoldedCovers(stream, gists, symbiot, budget, text, s);
      }
    }
  }

  /** What a collapse leaves: the whole tail absorbed, and nothing to pick the symbiot for. */
  lemma CollapsedWell(stream: seq<Item>, gists: seq<Gist>, symbiot: int, text: string)
    requires InOrder(stream) && Spoken(stream)
    requires Tail(stream, symbiot, Cutoff(gists, symbiot)) != []
    ensures var tail := Tail(stream, symbiot, Cutoff(gists, symbiot));
            var gists' := gists + [Folded(gists, symbiot, tail, tail[|tail| - 1].id, text)];
            && Tail(stream, symbiot, Cutoff(gists', symbiot)) == []
            && Absorbed(gists', symbiot) == Absorbed(gists, symbiot) + tail
            && forall i: real, t: real :: NextToCollapse(stream, gists', i, t) != Some(symbiot)
  {
    var tail := Tail(stream, symbiot, Cutoff(gists, symbiot));
    var gist := Folded(gists, symbiot, tail, tail[|tail| - 1].id, text);
    var longer := gists + [gist];
    TailAfter(stream, symbiot, Cutoff(gists, symbiot), |tail|);
    GistNext(gists, gist, symbiot);
    forall i: real, t: real
      ensures NextToCollapse(stream, longer, i, t) != Some(symbiot)
    {
      NothingToCollapse(stream, longer, symbiot, i, t);
    }
  }
}
