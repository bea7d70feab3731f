/** What the kernel promises over every run: any schedule, any interleaving, any crash, from the empty store. */
module KernelTheorems {
  import opened Prelude
  import opened Tables
  import opened Lifecycle
  import opened Gradient
  import opened ReminderTool
  import opened Stream
  import opened Filing
  import opened Kernel
  import opened KernelInvariants

  // ----- what one step may change

  /** What is written for good: stream rows, missives, Gists, enrichment rows and filings only ever join. */
  ghost predicate Grows(s: State, s': State) {
    && s'.max == s.max
    && s.stream <= s'.stream
    && s.gists <= s'.gists
    && MissivesGrow(s.missives, s'.missives)
    && (forall m :: m in s.enrichments ==> m in s'.enrichments && s'.enrichments[m] == s.enrichments[m])
    && (forall m :: m in s.diary.filed ==> m in s'.diary.filed && s'.diary.filed[m] == s.diary.filed[m])
  }

  lemma GrowsTrans(a: State, b: State, c: State)
    requires Grows(a, b) && Grows(b, c)
    ensures Grows(a, c)
  {
  }

  lemma SameGrows(s: State, s': State)
    requires s'.max == s.max && s'.stream == s.stream && s'.gists == s.gists && s'.missives == s.missives
    requires s'.enrichments == s.enrichments && s'.diary == s.diary
    ensures Grows(s, s')
  {
  }

  lemma StreamGrown(s: State, s': State, row: Item)
    requires s'.max == s.max && s'.stream == s.stream + [row] && s'.gists == s.gists
    requires MissivesGrow(s.missives, s'.missives)
    requires s'.enrichments == s.enrichments && s'.diary == s.diary
    ensures Grows(s, s')
  {
  }

  lemma ReceiveGrows(s: State, m: int, text: string, sender: Option<int>, item: int, now: real)
    ensures Grows(s, DoReceive(s, m, text, sender, item, now))
  {
    var s' := DoReceive(s, m, text, sender, item, now);
    if s'.stream == s.stream {
      SameGrows(s, s');
    } else {
      StreamGrown(s, s', SaidItem(item, sender.value, m, text, now));
    }
  }

  lemma WorkerGrows(s: State, workers: map<int, Holding>, intake: Intake)
    ensures Grows(s, s.(workers := workers, intake := intake))
  {
  }

  lemma AnswerGrows(s: State, workers: map<int, Holding>, intake: Intake, row: Item)
    ensures Grows(s, s.(workers := workers, intake := intake, stream := s.stream + [row]))
  {
  }

  lemma CompletedGrows(s: State, w: int, answer: string, item: int, now: real)
    requires w in s.workers && StillWorking(s, s.workers[w].message)
    ensures Grows(s, DoFinish(s, w, Completed(answer), item, now))
  {
    var h, workers := s.workers[w], s.workers - {w};
    var intake := s.intake[h.message := AnsweredWith(s.intake[h.message], answer, now)];
    if answer == "" || (h.symbiot.Some? && !CanAppend(s.stream, item, h.symbiot.value)) {
      SameGrows(s, s);
    } else if h.symbiot.Some? {
      AnswerGrows(s, workers, intake, RepliedItem(item, h.symbiot.value, h.message, answer, now));
    } else {
      WorkerGrows(s, workers, intake);
    }
  }

  lemma FinishGrows(s: State, w: int, report: Report, item: int, now: real)
    ensures Grows(s, DoFinish(s, w, report, item, now))
  {
    if w in s.workers && StillWorking(s, s.workers[w].message) {
      var h, workers := s.workers[w], s.workers - {w};
      match report
      case Completed(answer) => CompletedGrows(s, w, answer, item, now);
      case TimedOut =>
        WorkerGrows(s, workers, s.intake[h.message := FailedWith(s.intake[h.message], "deadline exceeded", now)]);
      case Crashed(trace) =>
        WorkerGrows(s, workers, s.intake[h.message := FailedWith(s.intake[h.message], trace, now)]);
    } else if w in s.workers {
      WorkerGrows(s, s.workers - {w}, s.intake);
    }
  }

  lemma MessagesGrow(s: State, step: Step)
    requires OfTheMessages(step)
    ensures Grows(s, OnMessages(s, step))
  {
    match step
    case Receive(m, text, sender, item, now) => ReceiveGrows(s, m, text, sender, item, now);
    case Act(w, call, now) => SameGrows(s, DoAct(s, w, call, now));
    case Finish(w, report, item, now) => FinishGrows(s, w, report, item, now);
    case Claim(w, m, now) => SameGrows(s, DoClaim(s, w, m, now));
    case FailOverdue(_, _) =>
    case RequeueFailed(_) =>
    case AbandonExhausted(_) =>
    case MarkDelivered(_, _) =>
    case Restart(now) => SameGrows(s, DoRestart(s, now));
  }

  /** The store grows, and no message moves. */
  ghost predicate GrowsOnly(s: State, s': State) {
    Grows(s, s') && s'.intake == s.intake
  }

  lemma TellGrows(s: State, x: int, symbiot: int, body: string, item: int, now: real)
    ensures GrowsOnly(s, DoTell(s, x, symbiot, body, item, now))
  {
    var s' := DoTell(s, x, symbiot, body, item, now);
    if s'.stream == s.stream {
      SameGrows(s, s');
    } else {
      StreamGrown(s, s', RaisedItem(item, symbiot, x, body, now));
    }
  }

  lemma BookGrows(s: State, book: Book)
    ensures GrowsOnly(s, s.(book := book))
  {
  }

  lemma FoldersGrow(s: State, folders: map<int, Fold>)
    ensures GrowsOnly(s, s.(folders := folders))
  {
  }

  lemma PassesGrow(s: State, passes: map<int, Pass>)
    ensures GrowsOnly(s, s.(passes := passes))
  {
  }

  lemma FirersGrow(s: State, firers: map<int, int>)
    ensures GrowsOnly(s, s.(firers := firers))
  {
  }

  lemma FilersGrow(s: State, filers: map<int, int>)
    ensures GrowsOnly(s, s.(filers := filers))
  {
  }

  lemma FireGrows(s: State, d: int, x: int, item: int, now: real)
    ensures GrowsOnly(s, DoCommitFire(s, d, x, item, now))
  {
    var s' := DoCommitFire(s, d, x, item, now);
    if s'.stream == s.stream {
      SameGrows(s, s');
    } else {
      var row := s.book.reminders[s.firers[d]];
      StreamGrown(s, s', RaisedItem(item, row.symbiot, x, row.body, now));
    }
  }

  lemma ClaimDueGrows(s: State, d: int, r: int, now: real)
    ensures GrowsOnly(s, DoClaimDue(s, d, r, now))
  {
    var s' := DoClaimDue(s, d, r, now);
    assert s' == s.(firers := s'.firers);
    FirersGrow(s, s'.firers);
  }

  lemma RemindGrows(s: State, r: int, symbiot: int, body: string, fireAt: real)
    ensures GrowsOnly(s, DoRemind(s, r, symbiot, body, fireAt))
  {
    if r in s.book.reminders || body == "" {
      SameGrows(s, s);
    } else {
      BookGrows(s, s.book.(reminders := Created(s.book.reminders, r, symbiot, body, fireAt, None)));
    }
  }

  lemma CancelGrows(s: State, r: int, symbiot: int, now: real)
    ensures GrowsOnly(s, DoCancel(s, r, symbiot, now))
  {
    if Locked(s, Some(r)) {
      SameGrows(s, s);
    } else {
      BookGrows(s, s.book.(reminders := Cancelled(s.book.reminders, symbiot, r, now)));
    }
  }

  lemma EditGrows(s: State, r: int, symbiot: int, body: Option<string>, fireAt: Option<real>)
    ensures GrowsOnly(s, DoEdit(s, r, symbiot, body, fireAt))
  {
    if Locked(s, Some(r)) || body == Some("") {
      SameGrows(s, s);
    } else {
      BookGrows(s, s.book.(reminders := Edited(s.book.reminders, symbiot, r, body, fireAt)));
    }
  }

  lemma RemindersGrow(s: State, step: Step)
    requires OfTheReminders(step)
    ensures GrowsOnly(s, OnReminders(s, step))
  {
    match step
    case Tell(x, symbiot, body, item, now) => TellGrows(s, x, symbiot, body, item, now);
    case Remind(r, symbiot, body, fireAt) => RemindGrows(s, r, symbiot, body, fireAt);
    case Cancel(r, symbiot, now) => CancelGrows(s, r, symbiot, now);
    case Edit(r, symbiot, newBody, newFireAt) => EditGrows(s, r, symbiot, newBody, newFireAt);
    case ClaimDue(d, r, now) => ClaimDueGrows(s, d, r, now);
    case CommitFire(d, x, item, now) => FireGrows(s, d, x, item, now);
  }

  lemma TurnsReadGrows(s: State, f: int, turns: seq<Item>, reached: int)
    requires f in s.folders && s.folders[f].HasGist?
    ensures GrowsOnly(s, TurnsRead(s, f, turns, reached))
  {
    var s' := TurnsRead(s, f, turns, reached);
    assert s' == s.(folders := s'.folders);
    FoldersGrow(s, s'.folders);
  }

  lemma ReadPendingGrows(s: State, f: int, budget: int)
    ensures GrowsOnly(s, DoReadPending(s, f, budget))
  {
    if f in s.folders && s.folders[f].HasGist? {
      var fold := s.folders[f];
      var pending := PendingForFold(s.stream, fold.symbiot, budget, CutoffOf(fold.prior));
      TurnsReadGrows(s, f, pending.0, pending.1);
    } else {
      SameGrows(s, s);
    }
  }

  lemma GistsGrown(s: State, gist: Gist, folders: map<int, Fold>)
    ensures GrowsOnly(s, s.(gists := s.gists + [gist], folders := folders))
  {
  }

  lemma LockFoldGrows(s: State, f: int, symbiot: int)
    ensures GrowsOnly(s, DoLockFold(s, f, symbiot))
  {
    var s' := DoLockFold(s, f, symbiot);
    assert s' == s.(folders := s'.folders);
    FoldersGrow(s, s'.folders);
  }

  lemma ReadGistGrows(s: State, f: int)
    ensures GrowsOnly(s, DoReadGist(s, f))
  {
    var s' := DoReadGist(s, f);
    assert s' == s.(folders := s'.folders);
    FoldersGrow(s, s'.folders);
  }

  lemma CommitFoldGrows(s: State, f: int, text: string)
    ensures GrowsOnly(s, DoCommitFold(s, f, text))
  {
    if f in s.folders && s.folders[f].HasTurns? {
      var fold := s.folders[f];
      GistsGrown(s, Gist(fold.symbiot, text, fold.reached, AbsorbedBy(fold.prior) + fold.turns), s.folders - {f});
    } else {
      SameGrows(s, s);
    }
  }

  lemma MemoryGrows(s: State, step: Step)
    requires OfTheMemory(step)
    ensures GrowsOnly(s, OnMemory(s, step))
  {
    match step
    case LockFold(f, symbiot) => LockFoldGrows(s, f, symbiot);
    case ReadGist(f) => ReadGistGrows(s, f);
    case ReadPending(f, budget) => ReadPendingGrows(s, f, budget);
    case CommitFold(f, text) => CommitFoldGrows(s, f, text);
  }

  lemma RecordedAllGrows(
    enrichments: Enrichments, members: seq<int>, symbiot: int, missive: Option<int>, echo: bool, anchor: int, m: int)
    requires Unrecorded(enrichments, members) && m in enrichments
    ensures var after := RecordedAll(enrichments, members, symbiot, missive, echo, anchor);
            m in after && after[m] == enrichments[m]
  {
    RecordedAt(enrichments, members, symbiot, missive, echo, anchor, m);
  }

  lemma EnrichmentsGrown(s: State, s': State)
    requires s'.max == s.max && s.stream <= s'.stream && s'.gists == s.gists && s'.diary == s.diary
    requires MissivesGrow(s.missives, s'.missives) && s'.intake == s.intake
    requires forall m :: m in s.enrichments ==> m in s'.enrichments && s'.enrichments[m] == s.enrichments[m]
    ensures GrowsOnly(s, s')
  {
  }

  lemma SilentCommitGrows(s: State, e: int, held: bool)
    requires e in s.passes && s.passes[e].members != [] && Unrecorded(s.enrichments, s.passes[e].members)
    ensures GrowsOnly(s, SilentCommit(s, e, held))
  {
    var p := s.passes[e];
    var anchor := p.members[|p.members| - 1];
    forall m | m in s.enrichments
      ensures m in SilentCommit(s, e, held).enrichments
      ensures SilentCommit(s, e, held).enrichments[m] == s.enrichments[m]
    {
      RecordedAllGrows(s.enrichments, p.members, p.symbiot, None, held, anchor, m);
    }
    EnrichmentsGrown(s, SilentCommit(s, e, held));
  }

  lemma SpokenCommitGrows(s: State, e: int, body: string, x: int, item: int, now: real)
    requires e in s.passes && s.passes[e].members != [] && Unrecorded(s.enrichments, s.passes[e].members)
    ensures GrowsOnly(s, SpokenCommit(s, e, body, x, item, now))
  {
    var p := s.passes[e];
    var anchor := p.members[|p.members| - 1];
    if x in s.missives || !CanAppend(s.stream, item, p.symbiot) {
      SameGrows(s, s);
    } else {
      forall m | m in s.enrichments
        ensures m in SpokenCommit(s, e, body, x, item, now).enrichments
        ensures SpokenCommit(s, e, body, x, item, now).enrichments[m] == s.enrichments[m]
      {
        RecordedAllGrows(s.enrichments, p.members, p.symbiot, Some(x), false, anchor, m);
      }
      EnrichmentsGrown(s, SpokenCommit(s, e, body, x, item, now));
    }
  }

  lemma CommitGrows(
    s: State, e: int, surface: bool, echo: bool, body: string, x: int, item: int, now: real)
    ensures GrowsOnly(s, DoCommitBurst(s, e, surface, echo, body, x, item, now))
  {
    PassesGrow(s, s.passes - {e});
    SameGrows(s, s);
    if e in s.passes && s.passes[e].members != [] && Unrecorded(s.enrichments, s.passes[e].members) {
      SilentCommitGrows(s, e, false);
      SilentCommitGrows(s, e, true);
      SpokenCommitGrows(s, e, body, x, item, now);
    }
  }

  lemma LockTriedGrows(s: State, e: int, held: bool)
    requires e in s.passes
    ensures GrowsOnly(s, LockTried(s, e, held))
  {
    var s' := LockTried(s, e, held);
    assert s' == s.(passes := s'.passes);
    PassesGrow(s, s'.passes);
  }

  lemma LockBurstGrows(s: State, e: int)
    ensures GrowsOnly(s, DoLockBurst(s, e))
  {
    if e in s.passes && !s.passes[e].locked {
      LockTriedGrows(s, e, PassHeld(s.passes, s.passes[e].symbiot));
    } else {
      SameGrows(s, s);
    }
  }

  lemma DiaryGrown(s: State, diary: Diary, filers: map<int, int>)
    requires forall m :: m in s.diary.filed ==> m in diary.filed && diary.filed[m] == s.diary.filed[m]
    ensures GrowsOnly(s, s.(diary := diary, filers := filers))
  {
  }

  lemma FileGrows(s: State, g: int, id: int, routed: seq<int>, rank: int -> real, happenedAt: Option<real>)
    ensures GrowsOnly(s, DoFile(s, g, id, routed, rank, happenedAt))
  {
    var s' := DoFile(s, g, id, routed, rank, happenedAt);
    if s' == s {
      SameGrows(s, s');
    } else {
      DiaryGrown(s, s'.diary, s'.filers);
    }
  }

  lemma ReadBurstGrows(s: State, e: int, symbiot: int, members: seq<int>)
    ensures GrowsOnly(s, DoReadBurst(s, e, symbiot, members))
  {
    var s' := DoReadBurst(s, e, symbiot, members);
    assert s' == s.(passes := s'.passes);
    PassesGrow(s, s'.passes);
  }

  lemma ReadUnfiledGrows(s: State, g: int, m: int)
    ensures GrowsOnly(s, DoReadUnfiled(s, g, m))
  {
    var s' := DoReadUnfiled(s, g, m);
    assert s' == s.(filers := s'.filers);
    FilersGrow(s, s'.filers);
  }

  lemma DiaryGrows(s: State, step: Step)
    requires OfTheDiary(step)
    ensures GrowsOnly(s, OnDiary(s, step))
  {
    match step
    case ReadBurst(e, symbiot, members) => ReadBurstGrows(s, e, symbiot, members);
    case LockBurst(e) => LockBurstGrows(s, e);
    case CommitBurst(e, surface, echo, body, x, item, now) => CommitGrows(s, e, surface, echo, body, x, item, now);
    case ReadUnfiled(g, m) => ReadUnfiledGrows(s, g, m);
    case File(g, id, routed, rank, happenedAt) => FileGrows(s, g, id, routed, rank, happenedAt);
  }

  lemma LettingGoGrows(s: State, step: Step)
    requires OfLettingGo(step)
    ensures GrowsOnly(s, LetGo(s, step))
  {
    SameGrows(s, LetGo(s, step));
  }

  /** Every step only adds to what is written for good, and walks every message legally. */
  lemma StepGrows(s: State, step: Step)
    requires Inv(s)
    ensures Grows(s, Apply(s, step)) && Walks(s.intake, Apply(s, step).intake, s.max)
  {
    WalkStays(s.intake, s.max);
    if OfTheMessages(step) { MessagesGrow(s, step); MessageStepKeeps(s, step); }
    else if OfTheReminders(step) { RemindersGrow(s, step); }
    else if OfTheMemory(step) { MemoryGrows(s, step); }
    else if OfTheDiary(step) { DiaryGrows(s, step); }
    else { LettingGoGrows(s, step); }
  }

  /** And so does every run. */
  lemma {:induction false} RunGrows(s: State, steps: seq<Step>)
    requires Inv(s)
    ensures Grows(s, Exec(s, steps))
  {
    if steps != [] {
      var front := steps[..|steps| - 1];
      RunGrows(s, front);
      RunKeeps(s, front);
      StepGrows(Exec(s, front), steps[|steps| - 1]);
      GrowsTrans(s, Exec(s, front), Exec(s, steps));
    }
  }

  lemma Reachable(max: int, steps: seq<Step>)
    ensures Inv(Exec(Empty(max), steps)) && Exec(Empty(max), steps).max == max
  {
    EmptyInv(max);
    RunKeeps(Empty(max), steps);
    RunGrows(Empty(max), steps);
  }

  // ----- the message lifecycle

  function Moved(s: State, s': State, m: int): nat {
    if m in s.intake && m in s'.intake && s.intake[m].status != s'.intake[m].status then 1 else 0
  }

  /** How many status moves a run makes a message make. */
  ghost function MovesIn(s: State, steps: seq<Step>, m: int): nat {
    if steps == [] then 0
    else
      var front := steps[..|steps| - 1];
      MovesIn(s, front, m) + Moved(Exec(s, front), Exec(s, steps), m)
  }

  function Left(s: State, m: int): int {
    if m in s.intake then Measure(s.intake[m], s.max) else 3 * Budget(s.max)
  }

  lemma StepSpends(s: State, step: Step, m: int)
    requires Inv(s)
    ensures 0 <= Left(Apply(s, step), m)
    ensures Moved(s, Apply(s, step), m) + Left(Apply(s, step), m) <= Left(s, m)
  {
    StepGrows(s, step);
    var s' := Apply(s, step);
    if m in s.intake {
      assert RowOkAt(s.intake, s.max, m) && Walked(s.intake, s'.intake, s.max, m);
      MoveSpends(s.intake[m], s'.intake[m], s.max);
    } else if m in s'.intake {
      assert Recorded(s'.intake, m);
      FreshOk(s'.intake[m].text, s'.intake[m].symbiot, s'.intake[m].createdAt, s.max);
    }
  }

  lemma {:induction false} RunSpends(s: State, steps: seq<Step>, m: int)
    requires Inv(s)
    ensures 0 <= Left(Exec(s, steps), m)
    ensures MovesIn(s, steps, m) + Left(Exec(s, steps), m) <= Left(s, m)
  {
    if steps == [] {
      if m in s.intake { assert RowOkAt(s.intake, s.max, m); }
    } else {
      var front := steps[..|steps| - 1];
      RunSpends(s, front, m);
      RunKeeps(s, front);
      StepSpends(Exec(s, front), steps[|steps| - 1], m);
    }
  }

  /** However claims, failures, sweeps, re-queues, abandonments, restarts and late reports interleave, a message makes
      at most three status moves for every try it may have. */
  lemma BoundedMoves(max: int, steps: seq<Step>, m: int)
    ensures MovesIn(Empty(max), steps, m) <= 3 * Budget(max)
  {
    EmptyInv(max);
    RunSpends(Empty(max), steps, m);
  }

  /** A message is kept as it was said, and an outcome is for good: no later step of any thread changes it. */
  lemma {:induction false} OutcomeIsFinal(s: State, steps: seq<Step>, m: int)
    requires Inv(s) && m in s.intake
    ensures var s' := Exec(s, steps);
            && m in s'.intake
            && s'.intake[m].text == s.intake[m].text && s'.intake[m].symbiot == s.intake[m].symbiot
            && (Terminal(s.intake[m]) ==>
                  && s'.intake[m].status == s.intake[m].status
                  && s'.intake[m].answer == s.intake[m].answer && s'.intake[m].reason == s.intake[m].reason)
            && (s.intake[m].answer.Some? ==> s'.intake[m].answer == s.intake[m].answer)
            && (s.intake[m].deliveredAt.Some? ==> s'.intake[m].deliveredAt == s.intake[m].deliveredAt)
  {
    if steps != [] {
      var front := steps[..|steps| - 1];
      OutcomeIsFinal(s, front, m);
      RunKeeps(s, front);
      var t := Exec(s, front);
      StepGrows(t, steps[|steps| - 1]);
      RunGrows(s, front);
      assert RowOkAt(t.intake, t.max, m) && Walked(t.intake, Exec(s, steps).intake, t.max, m);
      MoveKeepsWords(t.intake[m], Exec(s, steps).intake[m], t.max);
    }
  }

  // ----- a restart

  /** The process dies with everything its threads held; what was being worked on waits again while it has tries left,
      and is given up once it has none, and no other row is touched. */
  lemma RestartLeavesNobody(s: State, now: real)
    ensures var s' := Apply(s, Restart(now));
            && s'.workers == map[] && s'.folders == map[] && s'.passes == map[]
            && s'.firers == map[] && s'.filers == map[]
            && s'.intake.Keys == s.intake.Keys
            && s' == s.(intake := s'.intake, workers := map[], folders := map[], passes := map[], firers := map[],
                        filers := map[])
  {
  }

  lemma OrphanSettled(s: State, m: int, now: real)
    requires m in s.intake
    ensures var row, after := s.intake[m], Apply(s, Restart(now)).intake;
            && m in after
            && after[m] == if row.status != Working then row
                           else if row.attempts < s.max then row.(status := Received, updatedAt := now)
                           else row.(status := Abandoned, updatedAt := now, reason := Some(ORPHAN_ABANDON_REASON))
  {
  }

  /** A thread that ends, for whatever reason, writes nothing and takes only what it held with it. */
  lemma EndsAlone(s: State, step: Step, t: int)
    requires OfLettingGo(step)
    ensures WithoutItsOwn(s, LetGo(s, step), step, t)
  {
    match step
    case Lose(_) =>
    case EndFold(_) =>
    case EndPass(_) =>
    case EndFire(_) =>
    case EndFiling(_) =>
  }

  ghost predicate WithoutItsOwn(s: State, s': State, step: Step, t: int) {
    && s' == s.(workers := s'.workers, folders := s'.folders, passes := s'.passes, firers := s'.firers,
                filers := s'.filers)
    && (t in s'.workers <==> t in s.workers && step != Lose(t))
    && (t in s'.folders <==> t in s.folders && step != EndFold(t))
    && (t in s'.passes <==> t in s.passes && step != EndPass(t))
    && (t in s'.firers <==> t in s.firers && step != EndFire(t))
    && (t in s'.filers <==> t in s.filers && step != EndFiling(t))
  }

  // ----- the deadline

  /** A row that is in the same try as before, and still being worked on, is as it was. */
  lemma {:induction false} SameTrySameRow(s: State, steps: seq<Step>, m: int)
    requires Inv(s) && m in s.intake && s.intake[m].status == Working
    ensures var s' := Exec(s, steps);
            && m in s'.intake && s'.intake[m].attempts >= s.intake[m].attempts
            && (s'.intake[m].status == Working && s'.intake[m].attempts == s.intake[m].attempts ==>
                  s'.intake[m] == s.intake[m])
  {
    if steps == [] {
    } else {
      var front := steps[..|steps| - 1];
      SameTrySameRow(s, front, m);
      RunKeeps(s, front);
      StepSameTry(Exec(s, front), steps[|steps| - 1], m);
    }
  }

  lemma StepSameTry(s: State, step: Step, m: int)
    requires Inv(s) && m in s.intake
    ensures var s' := Apply(s, step);
            && m in s'.intake && s'.intake[m].attempts >= s.intake[m].attempts
            && (s'.intake[m].status == Working && s'.intake[m].attempts == s.intake[m].attempts ==>
                  s'.intake[m] == s.intake[m])
  {
    StepGrows(s, step);
    assert RowOkAt(s.intake, s.max, m) && Walked(s.intake, Apply(s, step).intake, s.max, m);
    MoveKeepsWords(s.intake[m], Apply(s, step).intake[m], s.max);
  }

  /** The clock of the deadline starts when work begins, however long the message had waited: a row claimed at one
      instant and still in that try, whatever any thread has done since, is failed by a sweep more than the ceiling
      later and left alone by any other. */
  lemma DeadlineFromClaim(s: State, w: int, m: int, claimed: real, steps: seq<Step>, ceiling: real, now: real)
    requires Inv(s) && w !in s.workers && m in s.intake && s.intake[m].status == Received
    requires var s' := Exec(Apply(s, Claim(w, m, claimed)), steps);
             m in s'.intake && s'.intake[m].status == Working && s'.intake[m].attempts == s.intake[m].attempts + 1
    ensures var swept := Apply(Exec(Apply(s, Claim(w, m, claimed)), steps), FailOverdue(ceiling, now));
            && m in swept.intake
            && swept.intake[m].status == (if claimed + ceiling < now then Failed else Working)
            && (claimed + ceiling < now ==> swept.intake[m].reason == Some(SWEEP_REASON))
  {
    ClaimKeeps(s, w, m, claimed);
    ClaimStarts(s, w, m, claimed);
    DeadlineOfTry(DoClaim(s, w, m, claimed), m, steps, ceiling, now);
  }

  lemma ClaimStarts(s: State, w: int, m: int, now: real)
    requires w !in s.workers && m in s.intake && s.intake[m].status == Received
    ensures var taken := DoClaim(s, w, m, now);
            && m in taken.intake && taken.intake[m].status == Working && taken.intake[m].updatedAt == now
            && taken.intake[m].attempts == s.intake[m].attempts + 1
  {
  }

  lemma DeadlineOfTry(s: State, m: int, steps: seq<Step>, ceiling: real, now: real)
    requires Inv(s) && m in s.intake && s.intake[m].status == Working
    requires var s' := Exec(s, steps);
             m in s'.intake && s'.intake[m].status == Working && s'.intake[m].attempts == s.intake[m].attempts
    ensures var swept := Apply(Exec(s, steps), FailOverdue(ceiling, now));
            && m in swept.intake
            && swept.intake[m].status == (if s.intake[m].updatedAt + ceiling < now then Failed else Working)
            && (s.intake[m].updatedAt + ceiling < now ==> swept.intake[m].reason == Some(SWEEP_REASON))
  {
    SameTrySameRow(s, steps, m);
    SweptAt(Exec(s, steps).intake, m, ceiling, now);
  }

  lemma SweptAt(intake: Intake, m: int, ceiling: real, now: real)
    requires m in intake && intake[m].status == Working
    ensures var after := OverdueFailed(intake, ceiling, now);
            && m in after
            && after[m].status == (if intake[m].updatedAt + ceiling < now then Failed else Working)
            && (intake[m].updatedAt + ceiling < now ==> after[m].reason == Some(SWEEP_REASON))
  {
  }

  predicate IsAnswered(s: State, m: int) {
    m in s.intake && s.intake[m].status == Answered
  }

  /** How many of a run's steps are the one that answers the message. */
  ghost function AnswersIn(s: State, steps: seq<Step>, m: int): nat {
    if steps == [] then 0
    else
      var front := steps[..|steps| - 1];
      AnswersIn(s, front, m)
      + (if !IsAnswered(Exec(s, front), m) && IsAnswered(Exec(s, steps), m) then 1 else 0)
  }

  /** Stale workers and all, a message is answered at most once. */
  lemma {:induction false} AnsweredOnce(s: State, steps: seq<Step>, m: int)
    requires Inv(s) && !IsAnswered(s, m)
    ensures AnswersIn(s, steps, m) == if IsAnswered(Exec(s, steps), m) then 1 else 0
  {
    if steps != [] {
      var front, last := steps[..|steps| - 1], steps[|steps| - 1];
      AnsweredOnce(s, front, m);
      RunKeeps(s, front);
      if IsAnswered(Exec(s, front), m) {
        OutcomeIsFinal(Exec(s, front), [last], m);
        assert [last][..0] == [];
        assert Exec(Exec(s, front), [last]) == Exec(s, steps);
      }
    }
  }

  /** The budget's promises, in every reachable state. */
  lemma BudgetHolds(max: int, steps: seq<Step>, m: int)
    requires m in Exec(Empty(max), steps).intake
    ensures var row := Exec(Empty(max), steps).intake[m];
            && row.attempts <= Budget(max)
            && (row.status == Received ==> row.attempts < Budget(max))
            && (row.status == Abandoned ==> row.attempts == Budget(max) && row.attempts >= max && row.reason.Some?)
            && (row.status == Answered <==> row.answer.Some?)
            && (row.deliveredAt.Some? ==> Terminal(row))
  {
    Reachable(max, steps);
    assert RowOkAt(Exec(Empty(max), steps).intake, max, m);
  }

  /** Exactly when a reported answer lands: the guard names a state and not an attempt, so it is the row being worked
      on, by whichever worker, that lets it in. */
  lemma AnswerLandsExactly(s: State, w: int, answer: string, item: int, now: real)
    requires w in s.workers
    requires answer != "" && (s.workers[w].symbiot.Some? ==> CanAppend(s.stream, item, s.workers[w].symbiot.value))
    ensures var m := s.workers[w].message;
            var s' := Apply(s, Finish(w, Completed(answer), item, now));
            && (!IsAnswered(s, m) && IsAnswered(s', m) <==> StillWorking(s, m))
            && (StillWorking(s, m) ==> s'.intake[m].answer == Some(answer))
            && (!StillWorking(s, m) ==> s'.intake == s.intake && s'.stream == s.stream)
  {
    var m := s.workers[w].message;
    var s' := DoFinish(s, w, Completed(answer), item, now);
    if StillWorking(s, m) {
      assert s'.intake == s.intake[m := AnsweredWith(s.intake[m], answer, now)];
    } else {
      assert s' == s.(workers := s.workers - {w});
    }
  }

  predicate IsFailed(s: State, m: int) {
    m in s.intake && s.intake[m].status == Failed
  }

  function ReasonOf(report: Report): string
    requires !report.Completed?
  {
    match report
    case TimedOut => "deadline exceeded"
    case Crashed(trace) => trace
  }

  /** And exactly when a reported timeout or crash does: the same guard lets it in, so a worker that is late fails
      whichever try is under way. */
  lemma FailureLandsExactly(s: State, w: int, report: Report, item: int, now: real)
    requires w in s.workers && !report.Completed?
    ensures var m := s.workers[w].message;
            var s' := Apply(s, Finish(w, report, item, now));
            && (!IsFailed(s, m) && IsFailed(s', m) <==> StillWorking(s, m))
            && (StillWorking(s, m) ==> s'.intake[m].reason == Some(ReasonOf(report)))
            && (!StillWorking(s, m) ==> s'.intake == s.intake)
            && s'.stream == s.stream && w !in s'.workers
  {
    FailureLands(s, w, report, item, now);
  }

  lemma FailureLands(s: State, w: int, report: Report, item: int, now: real)
    requires w in s.workers && !report.Completed?
    ensures var m := s.workers[w].message;
            var s' := DoFinish(s, w, report, item, now);
            && (!IsFailed(s, m) && IsFailed(s', m) <==> StillWorking(s, m))
            && (StillWorking(s, m) ==> s'.intake[m].reason == Some(ReasonOf(report)))
            && (!StillWorking(s, m) ==> s'.intake == s.intake)
            && s'.stream == s.stream && w !in s'.workers
  {
    FailureOf(s, w, report, item, now);
  }

  lemma FailureOf(s: State, w: int, report: Report, item: int, now: real)
    requires w in s.workers && !report.Completed?
    ensures var m := s.workers[w].message;
            var free := s.(workers := s.workers - {w});
            DoFinish(s, w, report, item, now)
            == if StillWorking(s, m) then free.(intake := s.intake[m := FailedWith(s.intake[m], ReasonOf(report), now)])
               else free
  {
    match report
    case TimedOut =>
    case Crashed(_) =>
  }

  /** The first worker's claim, a sweep that fails it, its re-queue, and another worker's claim. */
  function Reclaimed(): seq<Step> {
    [Receive(1, "?", None, 0, 0.0), Claim(1, 1, 0.0), FailOverdue(60.0, 100.0), RequeueFailed(100.0),
     Claim(2, 1, 100.0)]
  }

  lemma ReclaimedOnce()
    ensures var row := Fresh("?", None, 0.0);
            var s := Apply(Apply(Empty(3), Receive(1, "?", None, 0, 0.0)), Claim(1, 1, 0.0));
            s == Empty(3).(intake := map[1 := row.(status := Working, attempts := 1)],
                           workers := map[1 := Holding(1, "?", None)])
  {
    var s := Apply(Empty(3), Receive(1, "?", None, 0, 0.0));
    assert s == Empty(3).(intake := map[1 := Fresh("?", None, 0.0)]);
  }

  lemma ReclaimedTwice(s: State)
    requires var row := Fresh("?", None, 0.0);
             s == Empty(3).(intake := map[1 := row.(status := Working, attempts := 1)],
                            workers := map[1 := Holding(1, "?", None)])
    ensures var s' := Apply(Apply(Apply(s, FailOverdue(60.0, 100.0)), RequeueFailed(100.0)), Claim(2, 1, 100.0));
            && s'.intake == map[1 := Fresh("?", None, 0.0).(status := Working, attempts := 2, updatedAt := 100.0)]
            && s'.workers == map[1 := Holding(1, "?", None), 2 := Holding(1, "?", None)]
  {
    SweptAndRequeued();
    var b := Apply(Apply(s, FailOverdue(60.0, 100.0)), RequeueFailed(100.0));
    assert b.intake == map[1 := Fresh("?", None, 0.0).(attempts := 1, updatedAt := 100.0)];
  }

  lemma SweptAndRequeued()
    ensures var row := Fresh("?", None, 0.0);
            FailedRequeued(OverdueFailed(map[1 := row.(status := Working, attempts := 1)], 60.0, 100.0), 3, 100.0)
            == map[1 := row.(attempts := 1, updatedAt := 100.0)]
  {
    var row := Fresh("?", None, 0.0);
    var failed := row.(status := Failed, attempts := 1, reason := Some(SWEEP_REASON), updatedAt := 100.0);
    assert OverdueFailed(map[1 := row.(status := Working, attempts := 1)], 60.0, 100.0) == map[1 := failed];
  }

  /** After which both workers hold the message, the second one's try being under way. */
  lemma ReclaimedState()
    ensures var s := Exec(Empty(3), Reclaimed());
            && s.intake == map[1 := Fresh("?", None, 0.0).(status := Working, attempts := 2, updatedAt := 100.0)]
            && s.workers == map[1 := Holding(1, "?", None), 2 := Holding(1, "?", None)]
  {
    var s := Apply(Apply(Empty(3), Receive(1, "?", None, 0, 0.0)), Claim(1, 1, 0.0));
    ExecFive(Empty(3), Receive(1, "?", None, 0, 0.0), Claim(1, 1, 0.0), FailOverdue(60.0, 100.0),
             RequeueFailed(100.0), Claim(2, 1, 100.0));
    ReclaimedOnce();
    ReclaimedTwice(s);
  }

  lemma ExecFive(s: State, a: Step, b: Step, c: Step, d: Step, e: Step)
    ensures Exec(s, [a, b, c, d, e]) == Apply(Apply(Apply(Apply(Apply(s, a), b), c), d), e)
  {
    assert [] + [a] == [a] && [a] + [b] == [a, b] && [a, b] + [c] == [a, b, c];
    assert [a, b, c] + [d] == [a, b, c, d] && [a, b, c, d] + [e] == [a, b, c, d, e];
    ExecSnoc(s, [], a);
    ExecSnoc(s, [a], b);
    ExecSnoc(s, [a, b], c);
    ExecSnoc(s, [a, b, c], d);
    ExecSnoc(s, [a, b, c, d], e);
  }

  lemma FirstOfTwo(s: State, late: string, second: string)
    requires s.intake == map[1 := Fresh("?", None, 0.0).(status := Working, attempts := 2, updatedAt := 100.0)]
    requires s.workers == map[1 := Holding(1, "?", None), 2 := Holding(1, "?", None)]
    requires late != ""
    ensures var s' := Apply(Apply(s, Finish(1, Completed(late), 0, 101.0)), Finish(2, Completed(second), 0, 102.0));
            && 1 in s'.intake && s'.intake[1].status == Answered && s'.intake[1].answer == Some(late)
            && s'.intake[1].attempts == 2
  {
    var s' := Apply(s, Finish(1, Completed(late), 0, 101.0));
    assert s'.intake == s.intake[1 := AnsweredWith(s.intake[1], late, 101.0)];
    assert 2 in s'.workers && s'.workers[2].message == 1;
  }

  /** The witness against "its later answer finds the row no longer working": the first worker's late answer is the one
      that stands, and the second worker's is dropped. */
  lemma LateAnswerStands(late: string, second: string)
    requires late != ""
    ensures var s := Exec(Empty(3), Reclaimed());
            var s' := Apply(s, Finish(1, Completed(late), 0, 101.0));
            var s'' := Apply(s', Finish(2, Completed(second), 0, 102.0));
            && 1 in s''.intake && s''.intake[1].status == Answered && s''.intake[1].answer == Some(late)
            && s''.intake[1].attempts == 2
  {
    ReclaimedState();
    FirstOfTwo(Exec(Empty(3), Reclaimed()), late, second);
  }

  lemma FailsTheOther(s: State, late: Report, second: string)
    requires s.intake == map[1 := Fresh("?", None, 0.0).(status := Working, attempts := 2, updatedAt := 100.0)]
    requires s.workers == map[1 := Holding(1, "?", None), 2 := Holding(1, "?", None)]
    requires !late.Completed?
    ensures var s' := Apply(Apply(s, Finish(1, late, 0, 101.0)), Finish(2, Completed(second), 0, 102.0));
            && 1 in s'.intake && s'.intake[1].status == Failed && s'.intake[1].answer == None
            && s'.intake[1].attempts == 2 && s'.intake[1].reason == Some(ReasonOf(late))
            && s'.workers == map[]
  {
    var s' := Apply(s, Finish(1, late, 0, 101.0));
    assert s'.intake == s.intake[1 := FailedWith(s.intake[1], ReasonOf(late), 101.0)];
    assert 2 in s'.workers && s'.workers[2].message == 1;
  }

  /** The witness against "harmlessly": the first worker's late timeout or crash fails the second one's try, and the
      answer the second one then brings is dropped. */
  lemma LateFailureDropsAnswer(late: Report, second: string)
    requires !late.Completed?
    ensures var s := Exec(Empty(3), Reclaimed());
            var s' := Apply(s, Finish(1, late, 0, 101.0));
            var s'' := Apply(s', Finish(2, Completed(second), 0, 102.0));
            && 1 in s''.intake && s''.intake[1].status == Failed && s''.intake[1].answer == None
            && s''.intake[1].attempts == 2 && s''.intake[1].reason == Some(ReasonOf(late))
            && s''.workers == map[]
  {
    ReclaimedState();
    FailsTheOther(Exec(Empty(3), Reclaimed()), late, second);
  }

  lemma ExecSnoc(s: State, steps: seq<Step>, step: Step)
    ensures Exec(s, steps + [step]) == Apply(Exec(s, steps), step)
  {
    assert (steps + [step])[..|steps|] == steps;
  }
}
