/** The stream, the memory, the reminders, the follow-ups and the diary, in every state a run can reach. */
module KernelPromises {
  import opened Prelude
  import opened Tables
  import opened Lifecycle
  import opened Gradient
  import opened ReminderTool
  import opened Stream
  import opened Filing
  import Bursts
  import opened Kernel
  import opened KernelInvariants
  import opened KernelTheorems

  // ----- the stream

  /** A row of the stream stays where it is, and its words exist and never change. */
  lemma WordsForever(s: State, steps: seq<Step>, i: nat)
    requires Inv(s) && i < |s.stream|
    ensures var s' := Exec(s, steps);
            && i < |s'.stream| && s'.stream[i] == s.stream[i]
            && Words(s.stream[i].line, s.intake, s.missives).Some?
            && Words(s.stream[i].line, s'.intake, s'.missives) == Words(s.stream[i].line, s.intake, s.missives)
  {
    var line := s.stream[i].line;
    RunGrows(s, steps);
    assert ItemOk(s.stream[i], s.intake, s.missives);
    if !line.Raised? {
      OutcomeIsFinal(s, steps, line.message);
    }
  }

  /** The one place a line has on the stream. */
  ghost predicate OnceAt(stream: seq<Item>, line: Line, i: nat) {
    i < |stream| && stream[i].line == line && forall j :: 0 <= j < |stream| && stream[j].line == line ==> j == i
  }

  lemma OnlyOnce(stream: seq<Item>, line: Line) returns (i: nat)
    requires LinesDistinct(stream) && HasLine(stream, line)
    ensures OnceAt(stream, line, i)
  {
    i :| 0 <= i < |stream| && stream[i].line == line;
  }

  /** A durable authed message is on the stream, once; its answer is there, once, exactly when there is one; and the
      question stands before the answer, under a lower id.  An anonymous message is never on it. */
  lemma MessageOnStream(max: int, steps: seq<Step>, m: int) returns (asked: nat, replied: nat)
    requires m in Exec(Empty(max), steps).intake
    ensures var s := Exec(Empty(max), steps);
            var row := s.intake[m];
            && (row.symbiot.Some? ==> OnceAt(s.stream, Said(m), asked))
            && (row.symbiot.Some? && row.status == Answered ==>
                  && OnceAt(s.stream, Replied(m), replied)
                  && asked < replied && s.stream[asked].id < s.stream[replied].id)
            && (row.symbiot.None? ==> !HasLine(s.stream, Said(m)))
            && (row.symbiot.None? || row.status != Answered ==> !HasLine(s.stream, Replied(m)))
  {
    Reachable(max, steps);
    var s := Exec(Empty(max), steps);
    asked, replied := 0, 0;
    assert RowOkAt(s.intake, max, m) && Mirrored(s.stream, s.intake, m);
    LinesOwned(s.stream, s.intake, s.missives, m);
    if s.intake[m].symbiot.Some? {
      asked := OnlyOnce(s.stream, Said(m));
      if s.intake[m].status == Answered {
        replied := OnlyOnce(s.stream, Replied(m));
        AskedBefore(s.stream, s.intake, s.missives, m, asked, replied);
      }
    }
  }

  lemma LinesOwned(stream: seq<Item>, intake: Intake, missives: Missives, m: int)
    requires AllItemsOk(stream, intake, missives) && m in intake
    ensures HasLine(stream, Said(m)) ==> intake[m].symbiot.Some?
    ensures HasLine(stream, Replied(m)) ==> intake[m].symbiot.Some? && intake[m].answer.Some?
  {
    if HasLine(stream, Said(m)) {
      var i :| 0 <= i < |stream| && stream[i].line == Said(m);
      assert ItemOk(stream[i], intake, missives);
    }
    if HasLine(stream, Replied(m)) {
      var i :| 0 <= i < |stream| && stream[i].line == Replied(m);
      assert ItemOk(stream[i], intake, missives);
    }
  }

  lemma AskedBefore(stream: seq<Item>, intake: Intake, missives: Missives, m: int, asked: nat, replied: nat)
    requires StreamOk(stream, intake, missives)
    requires OnceAt(stream, Said(m), asked) && OnceAt(stream, Replied(m), replied)
    ensures asked < replied && stream[asked].id < stream[replied].id
  {
    assert AskedFirst(stream, replied);
    assert ItemOk(stream[asked], intake, missives) && ItemOk(stream[replied], intake, missives);
  }

  // ----- the memory gradient

  /** Whatever the folds, the budgets and the crashes, what the current Gist absorbed followed by the tail a reply reads
      is the symbiot's whole stream, in id order, each row once.  The Gist is read first and the tail only then, and any
      run may go on in between: a fold that commits there puts no turn in both pieces and none in neither. */
  lemma NoGapNoOverlap(max: int, steps: seq<Step>, between: seq<Step>, symbiot: int)
    ensures var s := Exec(Empty(max), steps);
            var stream := Exec(s, between).stream;
            && Absorbed(s.gists, symbiot) + Recent(stream, s.gists, symbiot, {}) == Whole(stream, symbiot)
            && Ascending(Whole(stream, symbiot))
            && forall i :: i in stream && i.symbiot == symbiot <==> i in Whole(stream, symbiot)
  {
    Reachable(max, steps);
    var s := Exec(Empty(max), steps);
    var stream := Exec(s, between).stream;
    assert Remembered(s.stream, s.gists, symbiot);
    RunKeeps(s, between);
    RunGrows(s, between);
    StillRemembered(s.stream, stream, s.gists, symbiot);
    ExcludingNothing(Tail(stream, symbiot, Cutoff(s.gists, symbiot)));
    TailAscends(stream, symbiot, 0);
    forall i
      ensures i in stream && i.symbiot == symbiot <==> i in Whole(stream, symbiot)
    {
      TailHolds(stream, symbiot, 0, i);
      PositiveIds(stream, i);
    }
  }

  /** A Gist goes on covering what came before its cutoff, however the stream grows. */
  lemma {:induction false} StillRemembered(before: seq<Item>, after: seq<Item>, gists: seq<Gist>, symbiot: int)
    requires Remembered(before, gists, symbiot) && before <= after && InOrder(before) && InOrder(after)
    ensures Remembered(after, gists, symbiot)
    decreases |after|
  {
    if before == after {
    } else {
      var front, last := after[..|after| - 1], after[|after| - 1];
      StillRemembered(before, front, gists, symbiot);
      TailIsQuiet(front, last, gists, symbiot);
      assert after == front + [last];
    }
  }

  lemma PositiveIds(stream: seq<Item>, i: Item)
    requires InOrder(stream)
    ensures i in stream ==> i.id > 0
  {
  }

  /** The turns the k-th Gist row folded in: what it absorbed that the one before it had not. */
  function FoldedBy(gists: seq<Gist>, k: nat): seq<Item>
    requires k < |gists|
  {
    var before := Absorbed(gists[..k], gists[k].symbiot);
    if |before| <= |gists[k].absorbed| then gists[k].absorbed[|before|..] else []
  }

  /** Every fold of a symbiot's moves the cutoff on, and takes in at least one turn, none of which any other fold of
      the symbiot's took. */
  lemma AbsorbedOnce(max: int, steps: seq<Step>, i: nat, j: nat, turn: Item)
    requires var gists := Exec(Empty(max), steps).gists;
             i < j < |gists| && gists[i].symbiot == gists[j].symbiot
    ensures var gists := Exec(Empty(max), steps).gists;
            && gists[i].cutoff < gists[j].cutoff
            && FoldedBy(gists, j) != []
            && !(turn in FoldedBy(gists, i) && turn in FoldedBy(gists, j))
  {
    Reachable(max, steps);
    var s := Exec(Empty(max), steps);
    var gists := s.gists;
    assert Advances(gists[i], gists[j]);
    var front := gists[..j];
    AdvanceInFront(gists, j);
    CurrentIsLatest(front, i);
    var prior := CurrentGist(front, gists[j].symbiot).value;
    PriorAdvances(gists, j);
    AbsorbedIsOfStream(s, j);
    NoTwice(gists[j].absorbed, |prior.absorbed|, turn);
    if turn in FoldedBy(gists, i) {
      var k :| 0 <= k < |FoldedBy(gists, i)| && FoldedBy(gists, i)[k] == turn;
      assert turn in gists[i].absorbed;
      assert turn in prior.absorbed;
      assert prior.absorbed == gists[j].absorbed[..|prior.absorbed|];
    }
  }

  lemma AdvanceInFront(gists: seq<Gist>, j: nat)
    requires AllAdvance(gists) && j <= |gists|
    ensures AllAdvance(gists[..j])
  {
    var front := gists[..j];
    forall a, b | 0 <= a < b < |front|
      ensures Advances(front[a], front[b])
    {
      assert Advances(gists[a], gists[b]);
    }
  }

  /** The Gist before the j-th is one of the earlier rows, so the j-th carries on from it. */
  lemma PriorAdvances(gists: seq<Gist>, j: nat)
    requires AllAdvance(gists) && j < |gists| && CurrentGist(gists[..j], gists[j].symbiot).Some?
    ensures CurrentGist(gists[..j], gists[j].symbiot).value.absorbed < gists[j].absorbed
  {
    var prior := CurrentGist(gists[..j], gists[j].symbiot).value;
    CurrentIsThere(gists[..j], gists[j].symbiot);
    var a :| 0 <= a < j && gists[..j][a] == prior;
    assert Advances(gists[a], gists[j]);
  }

  lemma {:induction false} CurrentIsThere(gists: seq<Gist>, symbiot: int)
    requires CurrentGist(gists, symbiot).Some?
    ensures CurrentGist(gists, symbiot).value in gists && CurrentGist(gists, symbiot).value.symbiot == symbiot
  {
    if gists[|gists| - 1].symbiot != symbiot {
      CurrentIsThere(gists[..|gists| - 1], symbiot);
    }
  }

  /** A collapse reads every turn still verbatim, whatever the run: no text the kernel writes measures nothing. */
  lemma CollapseTakesAll(max: int, steps: seq<Step>, symbiot: int)
    ensures var s := Exec(Empty(max), steps);
            var cutoff := Cutoff(s.gists, symbiot);
            var tail := Tail(s.stream, symbiot, cutoff);
            && Spoken(s.stream)
            && PendingForFold(s.stream, symbiot, 0, cutoff)
            == (tail, if tail == [] then cutoff else tail[|tail| - 1].id)
  {
    Reachable(max, steps);
    var s := Exec(Empty(max), steps);
    AllSpoken(s.stream, s.intake, s.missives);
    ZeroBudgetTakesAll(s.stream, symbiot, Cutoff(s.gists, symbiot));
  }

  lemma CollapsedTail(stream: seq<Item>, gists: seq<Gist>, fold: Fold, gist: Gist)
    requires InOrder(stream) && fold.HasTurns? && FoldOk(fold, stream, gists)
    requires fold.turns == Tail(stream, fold.symbiot, CutoffOf(fold.prior))
    requires gist.symbiot == fold.symbiot && gist.cutoff == fold.reached
    ensures Tail(stream, fold.symbiot, Cutoff(gists + [gist], fold.symbiot)) == []
  {
    TailAfter(stream, fold.symbiot, CutoffOf(fold.prior), |fold.turns|);
    GistNext(gists, gist, fold.symbiot);
  }

  /** Once nothing of a symbiot's is verbatim, no run picks it for collapse again before it has a new row. */
  lemma QuietUntilSpokenTo(s: State, steps: seq<Step>, symbiot: int, idle: real, now: real)
    requires Inv(s) && Tail(s.stream, symbiot, Cutoff(s.gists, symbiot)) == []
    requires Whole(Exec(s, steps).stream, symbiot) == Whole(s.stream, symbiot)
    ensures var s' := Exec(s, steps);
            && Tail(s'.stream, symbiot, Cutoff(s'.gists, symbiot)) == []
            && NextToCollapse(s'.stream, s'.gists, idle, now) != Some(symbiot)
  {
    var s' := Exec(s, steps);
    RunKeeps(s, steps);
    RunGrows(s, steps);
    assert Remembered(s.stream, s.gists, symbiot) && Remembered(s'.stream, s'.gists, symbiot);
    AbsorbedGrows(s.gists, s'.gists, symbiot);
    NothingToCollapse(s'.stream, s'.gists, symbiot, idle, now);
  }

  lemma AbsorbedGrows(before: seq<Gist>, after: seq<Gist>, symbiot: int)
    requires before <= after && AllAdvance(after)
    ensures Absorbed(before, symbiot) <= Absorbed(after, symbiot)
  {
    if CurrentGist(before, symbiot).Some? {
      var i :| 0 <= i < |before| && before[i] == CurrentGist(before, symbiot).value;
      assert after[i] == before[i];
      CurrentIsLatest(after, i);
    }
  }

  lemma CollapseEmpties(s: State, f: int, text: string)
    requires Inv(s) && f in s.folders && s.folders[f].HasTurns?
    requires s.folders[f].turns == Tail(s.stream, s.folders[f].symbiot, CutoffOf(s.folders[f].prior))
    ensures var symbiot := s.folders[f].symbiot;
            var s' := DoCommitFold(s, f, text);
            Tail(s'.stream, symbiot, Cutoff(s'.gists, symbiot)) == [] && s'.stream == s.stream
  {
    var fold := s.folders[f];
    assert FoldOk(fold, s.stream, s.gists);
    CollapsedTail(s.stream, s.gists, fold,
                  Gist(fold.symbiot, text, fold.reached, AbsorbedBy(fold.prior) + fold.turns));
  }

  /** And so a collapse that commits before any new row of the symbiot's leaves it nothing verbatim, and whatever any
      thread does from then on, no silence picks it again until there is one. */
  lemma CollapsedUntilSpokenTo(s: State, f: int, text: string, steps: seq<Step>, idle: real, now: real)
    requires Inv(s) && f in s.folders && s.folders[f].HasTurns?
    requires s.folders[f].turns == Tail(s.stream, s.folders[f].symbiot, CutoffOf(s.folders[f].prior))
    requires var symbiot := s.folders[f].symbiot;
             Whole(Exec(DoCommitFold(s, f, text), steps).stream, symbiot) == Whole(s.stream, symbiot)
    ensures var symbiot := s.folders[f].symbiot;
            var s' := Exec(DoCommitFold(s, f, text), steps);
            && Tail(s'.stream, symbiot, Cutoff(s'.gists, symbiot)) == []
            && NextToCollapse(s'.stream, s'.gists, idle, now) != Some(symbiot)
  {
    CollapseEmpties(s, f, text);
    CommitFoldKeeps(s, f, text);
    QuietUntilSpokenTo(DoCommitFold(s, f, text), steps, s.folders[f].symbiot, idle, now);
  }

  /** What any Gist absorbed is a beginning of its symbiot's stream. */
  lemma AbsorbedIsOfStream(s: State, j: nat)
    requires Inv(s) && j < |s.gists|
    ensures s.gists[j].absorbed <= Whole(s.stream, s.gists[j].symbiot)
    ensures Ascending(s.gists[j].absorbed)
  {
    var symbiot := s.gists[j].symbiot;
    assert Remembered(s.stream, s.gists, symbiot);
    CurrentIsLatest(s.gists, j);
    TailAscends(s.stream, symbiot, 0);
  }

  lemma NoTwice(items: seq<Item>, k: nat, turn: Item)
    requires Ascending(items) && k <= |items|
    ensures !(turn in items[..k] && turn in items[k..])
  {
  }

  // ----- reminders

  /** A message has at most one reminder and no reminder both stamps; it is stamped fired exactly when it has raised a
      missive, of which there is one, with its line, on the stream once. */
  lemma FiredExactlyOnce(max: int, steps: seq<Step>, r: int) returns (x: int, i: nat)
    requires r in Exec(Empty(max), steps).book.reminders
    ensures var s := Exec(Empty(max), steps);
            var row := s.book.reminders[r];
            && (row.firedAt.None? || row.cancelledAt.None?)
            && (forall q :: q in s.book.reminders && row.intake.Some? && s.book.reminders[q].intake == row.intake
                  ==> q == r)
            && (row.firedAt.Some? ==>
                  && x in s.missives && s.missives[x] == Missive(row.symbiot, row.body, Fired(r))
                  && (forall y :: y in s.missives && s.missives[y].origin == Fired(r) ==> y == x)
                  && OnceAt(s.stream, Raised(x), i))
            && (row.firedAt.None? ==> forall y :: y in s.missives ==> s.missives[y].origin != Fired(r))
  {
    Reachable(max, steps);
    var s := Exec(Empty(max), steps);
    x, i := 0, 0;
    assert FiredOk(s.book.reminders, s.missives, r);
    forall y | y in s.missives && s.missives[y].origin == Fired(r)
      ensures s.book.reminders[r].firedAt.Some?
      ensures forall z :: z in s.missives && s.missives[z].origin == Fired(r) ==> z == y
    {
      assert FiringOk(s.book.reminders, s.missives, y);
    }
    if s.book.reminders[r].firedAt.Some? {
      x :| x in s.missives && s.missives[x] == Missive(s.book.reminders[r].symbiot, s.book.reminders[r].body, Fired(r));
      assert HasLine(s.stream, Raised(x));
      i := OnlyOnce(s.stream, Raised(x));
    }
  }

  /** What a step of the kernel may do to a reminder. */
  lemma StepTurns(s: State, step: Step)
    requires Inv(s)
    ensures Turns(s.book.reminders, Apply(s, step).book.reminders)
  {
    TurnsStay(s.book.reminders);
    if OfTheMessages(step) { MessagesTurn(s, step); }
    else if OfTheReminders(step) { RemindersTurn(s, step); }
    else if OfTheMemory(step) { MemoryKeepsBook(s, step); }
    else if OfTheDiary(step) { DiaryKeepsBook(s, step); }
  }

  lemma MessagesTurn(s: State, step: Step)
    requires Inv(s) && OfTheMessages(step)
    ensures Turns(s.book.reminders, OnMessages(s, step).book.reminders)
  {
    if step.Act? {
      ActTurns(s, step.w, step.call, step.now);
    } else {
      MessagesKeepBook(s, step);
      TurnsStay(s.book.reminders);
    }
  }

  lemma MessagesKeepBook(s: State, step: Step)
    requires OfTheMessages(step) && !step.Act?
    ensures OnMessages(s, step).book == s.book
  {
    match step
    case Receive(m, text, sender, item, now) => assert DoReceive(s, m, text, sender, item, now).book == s.book;
    case Claim(w, m, now) => assert DoClaim(s, w, m, now).book == s.book;
    case Finish(w, report, item, now) => FinishKeepsBook(s, w, report, item, now);
    case FailOverdue(_, _) =>
    case RequeueFailed(_) =>
    case AbandonExhausted(_) =>
    case MarkDelivered(_, _) =>
    case Restart(now) => assert DoRestart(s, now).book == s.book;
  }

  lemma FinishKeepsBook(s: State, w: int, report: Report, item: int, now: real)
    ensures DoFinish(s, w, report, item, now).book == s.book
  {
    if w in s.workers && !report.Completed? {
      FailureOf(s, w, report, item, now);
    } else if w in s.workers {
      var h := s.workers[w];
      var quiet := report.answer == "" || (h.symbiot.Some? && !CanAppend(s.stream, item, h.symbiot.value));
      assert StillWorking(s, h.message) && quiet ==> DoFinish(s, w, report, item, now) == s;
    }
  }

  lemma ActTurns(s: State, w: int, call: Call, now: real)
    requires Inv(s)
    ensures Turns(s.book.reminders, DoAct(s, w, call, now).book.reminders)
  {
    TurnsStay(s.book.reminders);
    if w in s.workers && s.workers[w].symbiot.Some? {
      CalledUnhurried(s, s.workers[w].symbiot.value, s.workers[w].message, call, now);
    }
  }

  lemma RemindersTurn(s: State, step: Step)
    requires Inv(s) && OfTheReminders(step)
    ensures Turns(s.book.reminders, OnReminders(s, step).book.reminders)
  {
    match step
    case Tell(x, symbiot, body, item, now) => TellTurns(s, x, symbiot, body, item, now);
    case Remind(r, symbiot, body, fireAt) => RemindTurns(s, r, symbiot, body, fireAt);
    case Cancel(r, symbiot, now) => CancelStepTurns(s, r, symbiot, now);
    case Edit(r, symbiot, newBody, newFireAt) => EditStepTurns(s, r, symbiot, newBody, newFireAt);
    case ClaimDue(d, r, now) => ClaimDueTurns(s, d, r, now);
    case CommitFire(d, x, item, now) => FireTurns(s, d, x, item, now);
  }

  lemma TellTurns(s: State, x: int, symbiot: int, body: string, item: int, now: real)
    ensures Turns(s.book.reminders, DoTell(s, x, symbiot, body, item, now).book.reminders)
  {
    TurnsStay(s.book.reminders);
  }

  lemma RemindTurns(s: State, r: int, symbiot: int, body: string, fireAt: real)
    ensures Turns(s.book.reminders, DoRemind(s, r, symbiot, body, fireAt).book.reminders)
  {
    TurnsStay(s.book.reminders);
    if r !in s.book.reminders { TurnsCreated(s.book.reminders, r, symbiot, body, fireAt, None); }
  }

  lemma CancelStepTurns(s: State, r: int, symbiot: int, now: real)
    ensures Turns(s.book.reminders, DoCancel(s, r, symbiot, now).book.reminders)
  {
    TurnsStay(s.book.reminders);
    CancelTurns(s.book.reminders, symbiot, r, now);
  }

  lemma EditStepTurns(s: State, r: int, symbiot: int, body: Option<string>, fireAt: Option<real>)
    ensures Turns(s.book.reminders, DoEdit(s, r, symbiot, body, fireAt).book.reminders)
  {
    TurnsStay(s.book.reminders);
    EditTurns(s.book.reminders, symbiot, r, body, fireAt);
  }

  lemma ClaimDueTurns(s: State, d: int, r: int, now: real)
    ensures Turns(s.book.reminders, DoClaimDue(s, d, r, now).book.reminders)
  {
    TurnsStay(s.book.reminders);
  }

  lemma FireTurns(s: State, d: int, x: int, item: int, now: real)
    requires BookOk(s.book.reminders) && FirersOk(s.firers, s.book.reminders)
    ensures Turns(s.book.reminders, DoCommitFire(s, d, x, item, now).book.reminders)
  {
    TurnsStay(s.book.reminders);
    if d in s.firers { StampNeedsLive(s.book.reminders, s.firers[d], now); }
  }

  lemma MemoryKeepsBook(s: State, step: Step)
    requires OfTheMemory(step)
    ensures OnMemory(s, step).book == s.book
  {
    match step
    case LockFold(f, symbiot) => assert DoLockFold(s, f, symbiot).book == s.book;
    case ReadGist(f) => assert DoReadGist(s, f).book == s.book;
    case ReadPending(f, budget) => assert DoReadPending(s, f, budget).book == s.book;
    case CommitFold(f, text) => assert DoCommitFold(s, f, text).book == s.book;
  }

  lemma DiaryKeepsBook(s: State, step: Step)
    requires OfTheDiary(step)
    ensures OnDiary(s, step).book == s.book
  {
    match step
    case ReadBurst(e, symbiot, members) => assert DoReadBurst(s, e, symbiot, members).book == s.book;
    case LockBurst(e) => assert DoLockBurst(s, e).book == s.book;
    case CommitBurst(e, surface, echo, body, x, item, now) =>
      assert DoCommitBurst(s, e, surface, echo, body, x, item, now).book == s.book;
    case ReadUnfiled(g, m) => assert DoReadUnfiled(s, g, m).book == s.book;
    case File(g, id, routed, rank, happenedAt) => assert DoFile(s, g, id, routed, rank, happenedAt).book == s.book;
  }

  /** A reminder stays its symbiot's and its message's over every run, and one that has fired or been called off never
      changes again, in a word or in a stamp. */
  lemma {:induction false} SettledForGood(s: State, steps: seq<Step>, r: int)
    requires Inv(s) && r in s.book.reminders
    ensures var after := Exec(s, steps).book.reminders;
            r in after && Became(s.book.reminders[r], after[r])
  {
    if steps == [] {
    } else {
      var front := steps[..|steps| - 1];
      SettledForGood(s, front, r);
      RunKeeps(s, front);
      var before, after := Exec(s, front).book.reminders, Exec(s, steps).book.reminders;
      StepTurns(Exec(s, front), steps[|steps| - 1]);
      assert Stepped(before, after, r);
    }
  }

  /** Between the read of a reminder and the write that finds it settled any run may go by; the refusal still names its
      state if and only if it was not a live row that fired meanwhile. */
  lemma RefusedAsRead(s: State, steps: seq<Step>, symbiot: int, r: int)
    requires Inv(s) && Find(s.book.reminders, symbiot, r).Some?
    requires !Scoped(Exec(s, steps).book.reminders, symbiot, r)
    ensures var before, after := s.book.reminders, Exec(s, steps).book.reminders;
            && r in after && !LiveReminder(after[r])
            && (Refused(before[r]) == Refused(after[r]) <==> !(LiveReminder(before[r]) && after[r].firedAt.Some?))
  {
    SettledForGood(s, steps, r);
    RefusalNamesTheState(s.book.reminders, Exec(s, steps).book.reminders, symbiot, r);
  }

  /** A free firing takes a reminder exactly when it has neither fired nor been called off, no other firing holds it,
      and the moment it is set for has come. */
  lemma TakenFromItsMoment(s: State, d: int, r: int, now: real)
    requires d !in s.firers
    ensures var s' := Apply(s, ClaimDue(d, r, now));
            && (d in s'.firers
                <==> && r in s.book.reminders && r !in s.firers.Values && s.book.reminders[r].fireAt <= now
                     && s.book.reminders[r].firedAt == None && s.book.reminders[r].cancelledAt == None)
            && s' == if d in s'.firers then s.(firers := s.firers[d := r]) else s
  {
  }

  /** A firing in flight holds its reminder live until it commits: the lock stands in for the guard the stamp lacks. */
  lemma FiringHoldsLive(max: int, steps: seq<Step>, d: int)
    requires d in Exec(Empty(max), steps).firers
    ensures var s := Exec(Empty(max), steps);
            && s.firers[d] in s.book.reminders && LiveReminder(s.book.reminders[s.firers[d]])
            && forall c :: c in s.firers && s.firers[c] == s.firers[d] ==> c == d
  {
    Reachable(max, steps);
  }

  // ----- follow-ups

  /** An enriched message has one row, surfaced exactly when a missive shows it; of its pass only the anchor's row may
      carry a missive or a held echo; and that missive, on the stream once, is the only one raised for that anchor. */
  lemma FollowedUpOnce(max: int, steps: seq<Step>, m: int) returns (i: nat)
    requires m in Exec(Empty(max), steps).enrichments
    ensures var s := Exec(Empty(max), steps);
            var row := s.enrichments[m];
            && m in s.intake && s.intake[m].status == Answered && s.intake[m].symbiot == Some(row.symbiot)
            && (row.surfaced <==> row.missive.Some?) && !(row.surfaced && row.echoSuppressed)
            && row.anchor in s.enrichments
            && (row.missive.Some? || row.echoSuppressed ==> m == row.anchor)
            && (row.missive.Some? ==>
                  && row.missive.value in s.missives && s.missives[row.missive.value].origin == FollowUp(m)
                  && OnceAt(s.stream, Raised(row.missive.value), i))
            && forall y :: y in s.missives && s.missives[y].origin == FollowUp(m) ==> row.missive == Some(y)
  {
    Reachable(max, steps);
    var s := Exec(Empty(max), steps);
    i := 0;
    assert EnrichmentOk(s.enrichments, m, s.intake, s.missives);
    forall y | y in s.missives && s.missives[y].origin == FollowUp(m)
      ensures s.enrichments[m].missive == Some(y)
    {
      assert FollowUpOk(s.enrichments, s.missives, y);
    }
    if s.enrichments[m].missive.Some? {
      assert HasLine(s.stream, Raised(s.enrichments[m].missive.value));
      i := OnlyOnce(s.stream, Raised(s.enrichments[m].missive.value));
    }
  }

  /** A pass that read a burst before another pass recorded any of it writes nothing: no row, no missive, no stream
      row. */
  lemma LosingPassRollsBack(
    s: State, e: int, surface: bool, echo: bool, body: string, x: int, item: int, now: real, k: nat)
    requires e in s.passes && s.passes[e].locked
    requires k < |s.passes[e].members| && s.passes[e].members[k] in s.enrichments
    ensures Apply(s, CommitBurst(e, surface, echo, body, x, item, now)) == s.(passes := s.passes - {e})
  {
    assert !Unrecorded(s.enrichments, s.passes[e].members);
  }

  /** The burst the sweep would read: the rows are the eligible messages, with their senders and times. */
  ghost predicate ListsEligible(s: State, rows: seq<Bursts.Row>) {
    forall k :: 0 <= k < |rows| ==>
      && Eligible(s, rows[k].id)
      && s.intake[rows[k].id].symbiot == Some(rows[k].symbiot) && s.intake[rows[k].id].createdAt == rows[k].at
  }

  function Ids(rows: seq<Bursts.Row>): seq<int> {
    seq(|rows|, k requires 0 <= k < |rows| => rows[k].id)
  }

  /** What the grouping picks is what a pass may start from. */
  lemma BurstIsReadable(s: State, e: int, rows: seq<Bursts.Row>, settle: real, now: real)
    requires ListsEligible(s, rows) && Bursts.NextBurst(rows, settle, now).Some? && e !in s.passes
    ensures var (symbiot, members) := Bursts.NextBurst(rows, settle, now).value;
            Apply(s, ReadBurst(e, symbiot, Ids(members)))
            == s.(passes := s.passes[e := Pass(symbiot, Ids(members), false)])
  {
    Bursts.MembersEligible(rows, settle, now);
    var (symbiot, members) := Bursts.NextBurst(rows, settle, now).value;
    assert Ids(members) != [] by { assert |Ids(members)| == |members|; }
    forall k | 0 <= k < |Ids(members)|
      ensures Eligible(s, Ids(members)[k]) && s.intake[Ids(members)[k]].symbiot == Some(symbiot)
    {
      assert members[k] in rows;
      var i :| 0 <= i < |rows| && rows[i] == members[k];
    }
  }

  lemma SilentCommitSpends(s: State, e: int, held: bool, m: int)
    requires e in s.passes && m in s.passes[e].members
    ensures var p := s.passes[e];
            var anchor := p.members[|p.members| - 1];
            var s' := SilentCommit(s, e, held);
            && m in s'.enrichments && s'.enrichments[m] == RowFor(m, p.symbiot, None, held, anchor)
            && s'.missives == s.missives && s'.stream == s.stream
  {
    var p := s.passes[e];
    RecordedAt(s.enrichments, p.members, p.symbiot, None, held, p.members[|p.members| - 1], m);
  }

  lemma SpokenCommitSpends(s: State, e: int, body: string, x: int, item: int, now: real, m: int)
    requires e in s.passes && m in s.passes[e].members
    requires x !in s.missives && CanAppend(s.stream, item, s.passes[e].symbiot)
    ensures var p := s.passes[e];
            var anchor := p.members[|p.members| - 1];
            var s' := SpokenCommit(s, e, body, x, item, now);
            && m in s'.enrichments && s'.enrichments[m] == RowFor(m, p.symbiot, Some(x), false, anchor)
            && s'.missives == s.missives[x := Missive(p.symbiot, body, FollowUp(anchor))]
            && s'.stream == s.stream + [RaisedItem(item, p.symbiot, x, body, now)]
  {
    var p := s.passes[e];
    RecordedAt(s.enrichments, p.members, p.symbiot, Some(x), false, p.members[|p.members| - 1], m);
  }

  /** A pass that wins records every member of its burst under the one anchor, the last, and raises one missive, whose
      words are on the stream, exactly when it surfaces. */
  lemma WinningPassSpendsBurst(
    s: State, e: int, surface: bool, echo: bool, body: string, x: int, item: int, now: real, m: int)
    requires e in s.passes && s.passes[e].locked && s.passes[e].members != []
    requires Unrecorded(s.enrichments, s.passes[e].members) && m in s.passes[e].members
    requires x !in s.missives && CanAppend(s.stream, item, s.passes[e].symbiot)
    ensures var p := s.passes[e];
            var anchor := p.members[|p.members| - 1];
            var s' := Apply(s, CommitBurst(e, surface, echo, body, x, item, now));
            && m in s'.enrichments && s'.enrichments[m].anchor == anchor
            && s'.enrichments[m].missive == (if m == anchor && Speaks(surface, body) && !echo then Some(x) else None)
            && s'.enrichments[m].echoSuppressed == (m == anchor && Speaks(surface, body) && echo)
            && s'.missives == (if Speaks(surface, body) && !echo
                               then s.missives[x := Missive(p.symbiot, body, FollowUp(anchor))]
                               else s.missives)
            && s'.stream == s.stream + (if Speaks(surface, body) && !echo
                                        then [RaisedItem(item, p.symbiot, x, body, now)] else [])
  {
    if Speaks(surface, body) && !echo {
      SpokenCommitSpends(s, e, body, x, item, now, m);
    } else {
      SilentCommitSpends(s, e, Speaks(surface, body) && echo, m);
    }
  }

  /** Once recorded, a message is never read as eligible again. */
  lemma SpentForGood(s: State, steps: seq<Step>, m: int)
    requires Inv(s) && m in s.enrichments
    ensures m in Exec(s, steps).enrichments && Exec(s, steps).enrichments[m] == s.enrichments[m]
    ensures !Eligible(Exec(s, steps), m)
  {
    RunGrows(s, steps);
  }

  // ----- the diary

  /** A message is filed as at most one fact, with one embedding and no link twice; only settled messages of the
      symbiot's are. */
  lemma FiledAtMostOnce(max: int, steps: seq<Step>, f: int, g: int)
    requires var d := Exec(Empty(max), steps).diary;
             f in d.facts && g in d.facts && d.facts[f].intake.Some? && d.facts[f].intake == d.facts[g].intake
    ensures var s := Exec(Empty(max), steps);
            && f == g
            && multiset(s.diary.embeddings)[f] == 1
            && (forall t :: multiset(s.diary.links)[(f, t)] <= 1)
            && Fileable(s.intake, s.diary.facts[f].intake.value)
  {
    Reachable(max, steps);
    var d := Exec(Empty(max), steps).diary;
    forall t
      ensures multiset(d.links)[(f, t)] <= 1
    {
      assert LinkOk(d.facts, d.links, (f, t));
    }
  }

  /** Once filed, a message keeps its fact, and the eligibility read never offers it again. */
  lemma FiledForGood(s: State, steps: seq<Step>, m: int)
    requires Inv(s) && m in s.diary.filed
    ensures m in Exec(s, steps).diary.filed && Exec(s, steps).diary.filed[m] == s.diary.filed[m]
    ensures !Unfiled(Exec(s, steps), m)
  {
    RunGrows(s, steps);
  }

  /** A free ingestion takes a message exactly when it is a symbiot's, has been answered or given up, and bears no
      fact. */
  lemma OfferedExactly(s: State, g: int, m: int)
    requires g !in s.filers
    ensures g in Apply(s, ReadUnfiled(g, m)).filers
       <==> && m in s.intake && s.intake[m].symbiot.Some? && m !in s.diary.filed
            && (s.intake[m].status == Answered || s.intake[m].status == Abandoned)
  {
  }

  /** A free pass takes a burst exactly when there is one, and every message of it is the symbiot's, answered, and not
      considered by any pass yet. */
  lemma ConsideredExactly(s: State, e: int, symbiot: int, members: seq<int>)
    requires e !in s.passes
    ensures var s' := Apply(s, ReadBurst(e, symbiot, members));
            && (e in s'.passes
                <==> && members != []
                     && forall k :: 0 <= k < |members| ==>
                          && members[k] in s.intake && s.intake[members[k]].symbiot == Some(symbiot)
                          && s.intake[members[k]].status == Answered && members[k] !in s.enrichments)
            && s' == if e in s'.passes then s.(passes := s.passes[e := Pass(symbiot, members, false)]) else s
  {
    ReadBurstIs(s, e, symbiot, members);
  }

  lemma ReadBurstIs(s: State, e: int, symbiot: int, members: seq<int>)
    requires e !in s.passes
    ensures var sound := members != []
                         && forall k :: 0 <= k < |members| ==>
                              && members[k] in s.intake && s.intake[members[k]].symbiot == Some(symbiot)
                              && s.intake[members[k]].status == Answered && members[k] !in s.enrichments;
            DoReadBurst(s, e, symbiot, members)
            == if sound then s.(passes := s.passes[e := Pass(symbiot, members, false)]) else s
  {
  }

  /** Some other pass has the symbiot's lock. */
  ghost predicate Elsewhere(s: State, e: int)
    requires e in s.passes
  {
    exists d :: d in s.passes && s.passes[d].locked && s.passes[d].symbiot == s.passes[e].symbiot
  }

  /** A pass gets its symbiot's lock exactly when no other pass has it, and ends where another does. */
  lemma LockedExactly(s: State, e: int)
    requires e in s.passes && !s.passes[e].locked
    ensures Apply(s, LockBurst(e))
         == s.(passes := if Elsewhere(s, e) then s.passes - {e} else s.passes[e := Pass(s.passes[e].symbiot,
                                                                                      s.passes[e].members, true)])
  {
    LockIs(s, e);
  }

  lemma LockIs(s: State, e: int)
    requires e in s.passes && !s.passes[e].locked
    ensures DoLockBurst(s, e)
         == s.(passes := if Elsewhere(s, e) then s.passes - {e} else s.passes[e := Pass(s.passes[e].symbiot,
                                                                                      s.passes[e].members, true)])
  {
    assert Elsewhere(s, e) == PassHeld(s.passes, s.passes[e].symbiot);
    assert DoLockBurst(s, e) == LockTried(s, e, Elsewhere(s, e));
  }

  /** What an ingestion files is the message's own words, under its id, linked to exactly the types they were routed
      to. */
  lemma FiledInItsWords(
    s: State, g: int, id: int, routed: seq<int>, rank: int -> real, happenedAt: Option<real>, t: int)
    requires Inv(s) && g in s.filers && s.filers[g] !in s.diary.filed && id !in s.diary.facts
    ensures var m := s.filers[g];
            var s' := Apply(s, File(g, id, routed, rank, happenedAt));
            && m in s.intake
            && s'.diary.facts == s.diary.facts[id := Fact(s.intake[m].text, happenedAt, Some(m))]
            && s'.diary.filed == s.diary.filed[m := id] && s'.diary.embeddings == s.diary.embeddings + [id]
            && ((id, t) in s'.diary.links <==> t in routed)
            && s' == s.(diary := s'.diary, filers := s.filers - {g})
  {
    var m := s.filers[g];
    ConceptsOnce(routed, rank);
    FiledOnce(s.diary, id, s.intake[m].text, Concepts(routed, rank), happenedAt, Some(m));
  }

  /** An ingestion that lost the race changes nothing. */
  lemma LosingFilingChangesNothing(
    s: State, g: int, id: int, routed: seq<int>, rank: int -> real, happenedAt: Option<real>)
    requires g in s.filers && s.filers[g] in s.diary.filed && s.filers[g] in s.intake && id !in s.diary.facts
    ensures Apply(s, File(g, id, routed, rank, happenedAt)) == s.(filers := s.filers - {g})
  {
  }
}
