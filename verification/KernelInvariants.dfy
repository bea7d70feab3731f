/** What every reachable state of the kernel satisfies, and that each step keeps it. */
module KernelInvariants {
  import opened Prelude
  import opened Tables
  import opened Lifecycle
  import opened Gradient
  import opened ReminderTool
  import opened Stream
  import opened Filing
  import opened Kernel

  // ----- the invariants

  /** A worker knows its message as the table does. */
  ghost predicate Knows(h: Holding, intake: Intake) {
    h.message in intake && intake[h.message].text == h.text && intake[h.message].symbiot == h.symbiot
  }

  ghost predicate WorkersOk(workers: map<int, Holding>, intake: Intake) {
    forall w :: w in workers ==> Knows(workers[w], intake)
  }

  /** A cutoff is zero, or the id of one of the symbiot's stream rows. */
  ghost predicate CutoffKnown(stream: seq<Item>, gists: seq<Gist>, symbiot: int) {
    Cutoff(gists, symbiot) == 0
    || exists i :: 0 <= i < |stream| && stream[i].symbiot == symbiot && stream[i].id == Cutoff(gists, symbiot)
  }

  /** The Gist and the tail after it hold the symbiot's whole stream, each row once. */
  ghost predicate Remembered(stream: seq<Item>, gists: seq<Gist>, symbiot: int) {
    Covers(stream, gists, symbiot) && CutoffKnown(stream, gists, symbiot)
  }

  /** Each Gist of a symbiot carries on from the one before: a later cutoff, and everything absorbed so far. */
  ghost predicate Advances(earlier: Gist, later: Gist) {
    earlier.symbiot == later.symbiot ==> earlier.cutoff < later.cutoff && earlier.absorbed < later.absorbed
  }

  ghost predicate AllAdvance(gists: seq<Gist>) {
    forall i, j {:trigger Advances(gists[i], gists[j])} :: 0 <= i < j < |gists| ==> Advances(gists[i], gists[j])
  }

  ghost predicate MemoryOk(stream: seq<Item>, gists: seq<Gist>) {
    && (forall symbiot {:trigger Remembered(stream, gists, symbiot)} :: Remembered(stream, gists, symbiot))
    && AllAdvance(gists)
  }

  /** The oldest turns of a tail, and the id they reach. */
  ghost predicate IsHead(turns: seq<Item>, reached: int, tail: seq<Item>) {
    0 < |turns| <= |tail| && turns == tail[..|turns|] && reached == turns[|turns| - 1].id
  }

  /** What a fold has read under its lock is still so. */
  ghost predicate FoldOk(fold: Fold, stream: seq<Item>, gists: seq<Gist>) {
    match fold
    case Owned(_) => true
    case HasGist(symbiot, prior) => prior == CurrentGist(gists, symbiot)
    case HasTurns(symbiot, prior, turns, reached) =>
      && prior == CurrentGist(gists, symbiot)
      && IsHead(turns, reached, Tail(stream, symbiot, CutoffOf(prior)))
  }

  ghost predicate OneFolder(folders: map<int, Fold>) {
    forall f, g :: f in folders && g in folders && folders[f].symbiot == folders[g].symbiot ==> f == g
  }

  ghost predicate FoldersOk(folders: map<int, Fold>, stream: seq<Item>, gists: seq<Gist>) {
    && OneFolder(folders)
    && forall f :: f in folders ==> FoldOk(folders[f], stream, gists)
  }

  /** An enrichment row is its message's, is surfaced exactly when a missive shows it, and only its pass's anchor
      carries the pass's outcome. */
  ghost predicate EnrichmentOk(enrichments: Enrichments, m: int, intake: Intake, missives: Missives)
    requires m in enrichments
  {
    var e := enrichments[m];
    && m in intake && intake[m].status == Answered && intake[m].symbiot == Some(e.symbiot)
    && (e.surfaced <==> e.missive.Some?)
    && !(e.echoSuppressed && e.surfaced)
    && e.anchor in enrichments && enrichments[e.anchor].anchor == e.anchor
    && (e.missive.Some? || e.echoSuppressed ==> m == e.anchor)
    && (e.missive.Some? ==>
          && e.missive.value in missives
          && missives[e.missive.value].origin == FollowUp(m) && missives[e.missive.value].symbiot == e.symbiot)
  }

  /** A follow-up missive is the one its anchor's row points at. */
  ghost predicate FollowUpOk(enrichments: Enrichments, missives: Missives, x: int)
    requires x in missives
  {
    missives[x].origin.FollowUp? ==>
      && missives[x].origin.anchor in enrichments
      && enrichments[missives[x].origin.anchor].missive == Some(x)
  }

  ghost predicate EnrichmentsOk(enrichments: Enrichments, intake: Intake, missives: Missives) {
    && (forall m {:trigger EnrichmentOk(enrichments, m, intake, missives)} ::
          m in enrichments ==> EnrichmentOk(enrichments, m, intake, missives))
    && (forall x {:trigger FollowUpOk(enrichments, missives, x)} :: x in missives ==>
          FollowUpOk(enrichments, missives, x))
  }

  /** A burst's members were, and so are, the symbiot's answered messages. */
  ghost predicate PassOk(p: Pass, intake: Intake) {
    forall k :: 0 <= k < |p.members| ==>
      && p.members[k] in intake
      && intake[p.members[k]].status == Answered && intake[p.members[k]].symbiot == Some(p.symbiot)
  }

  ghost predicate PassesOk(passes: map<int, Pass>, intake: Intake) {
    forall e :: e in passes ==> PassOk(passes[e], intake)
  }

  /** A fired reminder raised exactly one missive, with its line, to its symbiot. */
  ghost predicate FiredOk(reminders: Reminders, missives: Missives, r: int)
    requires r in reminders
  {
    reminders[r].firedAt.Some? ==>
      exists x :: x in missives && missives[x] == Missive(reminders[r].symbiot, reminders[r].body, Fired(r))
  }

  ghost predicate FiringOk(reminders: Reminders, missives: Missives, x: int)
    requires x in missives
  {
    missives[x].origin.Fired? ==>
      && missives[x].origin.reminder in reminders
      && reminders[missives[x].origin.reminder].firedAt.Some?
      && forall y :: y in missives && missives[y].origin == missives[x].origin ==> y == x
  }

  ghost predicate RemindersOk(reminders: Reminders, missives: Missives) {
    && BookOk(reminders)
    && (forall r {:trigger FiredOk(reminders, missives, r)} :: r in reminders ==> FiredOk(reminders, missives, r))
    && (forall x {:trigger FiringOk(reminders, missives, x)} :: x in missives ==> FiringOk(reminders, missives, x))
  }

  /** A row lock has one holder, and what it holds is live. */
  ghost predicate FirersOk(firers: map<int, int>, reminders: Reminders) {
    && (forall d :: d in firers ==> firers[d] in reminders && LiveReminder(reminders[firers[d]]))
    && (forall c, d :: c in firers && d in firers && firers[c] == firers[d] ==> c == d)
  }

  /** Only settled messages of the symbiot are filed. */
  ghost predicate Fileable(intake: Intake, m: int) {
    m in intake && intake[m].symbiot.Some? && Terminal(intake[m])
  }

  ghost predicate FilingOk(diary: Diary, filers: map<int, int>, intake: Intake) {
    && DiaryOk(diary)
    && (forall m :: m in diary.filed ==> Fileable(intake, m))
    && (forall g :: g in filers ==> Fileable(intake, filers[g]))
  }

  ghost predicate Inv(s: State) {
    && RowsOk(s.intake, s.max)
    && WorkersOk(s.workers, s.intake)
    && StreamOk(s.stream, s.intake, s.missives)
    && MemoryOk(s.stream, s.gists)
    && FoldersOk(s.folders, s.stream, s.gists)
    && EnrichmentsOk(s.enrichments, s.intake, s.missives)
    && PassesOk(s.passes, s.intake)
    && RemindersOk(s.book.reminders, s.missives)
    && FirersOk(s.firers, s.book.reminders)
    && FilingOk(s.diary, s.filers, s.intake)
  }

  // ----- what a walk of the message table leaves true elsewhere

  lemma FactsStay(before: Intake, after: Intake, max: int, m: int)
    requires RowsOk(before, max) && Walks(before, after, max) && m in before
    ensures m in after && after[m].text == before[m].text && after[m].symbiot == before[m].symbiot
    ensures Terminal(before[m]) ==> after[m].status == before[m].status
    ensures before[m].answer.Some? ==> after[m].answer == before[m].answer
  {
    assert RowOkAt(before, max, m) && Walked(before, after, max, m);
    MoveKeepsWords(before[m], after[m], max);
  }

  lemma WorkersStay(workers: map<int, Holding>, before: Intake, after: Intake, max: int)
    requires RowsOk(before, max) && Walks(before, after, max) && WorkersOk(workers, before)
    ensures WorkersOk(workers, after)
  {
    forall w | w in workers
      ensures Knows(workers[w], after)
    {
      FactsStay(before, after, max, workers[w].message);
    }
  }

  lemma PassStays(p: Pass, before: Intake, after: Intake, max: int)
    requires RowsOk(before, max) && Walks(before, after, max) && PassOk(p, before)
    ensures PassOk(p, after)
  {
    forall k | 0 <= k < |p.members|
      ensures p.members[k] in after
      ensures after[p.members[k]].status == Answered && after[p.members[k]].symbiot == Some(p.symbiot)
    {
      FactsStay(before, after, max, p.members[k]);
    }
  }

  lemma PassesStay(passes: map<int, Pass>, before: Intake, after: Intake, max: int)
    requires RowsOk(before, max) && Walks(before, after, max) && PassesOk(passes, before)
    ensures PassesOk(passes, after)
  {
    forall e | e in passes
      ensures PassOk(passes[e], after)
    {
      PassStays(passes[e], before, after, max);
    }
  }

  lemma FilingStays(diary: Diary, filers: map<int, int>, before: Intake, after: Intake, max: int)
    requires RowsOk(before, max) && Walks(before, after, max) && FilingOk(diary, filers, before)
    ensures FilingOk(diary, filers, after)
  {
    forall m | m in diary.filed
      ensures Fileable(after, m)
    {
      FactsStay(before, after, max, m);
    }
    forall g | g in filers
      ensures Fileable(after, filers[g])
    {
      FactsStay(before, after, max, filers[g]);
    }
  }

  lemma EnrichmentsStay(enrichments: Enrichments, before: Intake, after: Intake, max: int, missives: Missives)
    requires RowsOk(before, max) && Walks(before, after, max) && EnrichmentsOk(enrichments, before, missives)
    ensures EnrichmentsOk(enrichments, after, missives)
  {
    forall m | m in enrichments
      ensures EnrichmentOk(enrichments, m, after, missives)
    {
      assert EnrichmentOk(enrichments, m, before, missives);
      FactsStay(before, after, max, m);
    }
  }

  /** Everything but the stream survives a walk. */
  lemma WalkKeeps(s: State, after: Intake)
    requires Inv(s) && Walks(s.intake, after, s.max)
    ensures RowsOk(after, s.max)
    ensures WorkersOk(s.workers, after)
    ensures EnrichmentsOk(s.enrichments, after, s.missives)
    ensures PassesOk(s.passes, after)
    ensures FilingOk(s.diary, s.filers, after)
  {
    WalkKeepsRows(s.intake, after, s.max);
    WorkersStay(s.workers, s.intake, after, s.max);
    EnrichmentsStay(s.enrichments, s.intake, after, s.max, s.missives);
    PassesStay(s.passes, s.intake, after, s.max);
    FilingStays(s.diary, s.filers, s.intake, after, s.max);
  }

  /** A walk that answers nothing and records nothing authed keeps everything. */
  lemma QuietWalkKeeps(s: State, after: Intake)
    requires Inv(s) && Walks(s.intake, after, s.max) && NothingToMirror(s.intake, after)
    ensures Inv(s.(intake := after))
  {
    WalkKeeps(s, after);
    StreamStays(s.stream, s.intake, after, s.max, s.missives);
  }

  // ----- what a new stream row leaves true elsewhere

  lemma TailIsQuiet(stream: seq<Item>, item: Item, gists: seq<Gist>, symbiot: int)
    requires Remembered(stream, gists, symbiot) && CanAppend(stream, item.id, item.symbiot)
    ensures Remembered(stream + [item], gists, symbiot)
    ensures Tail(stream, symbiot, Cutoff(gists, symbiot)) <= Tail(stream + [item], symbiot, Cutoff(gists, symbiot))
  {
    var cutoff := Cutoff(gists, symbiot);
    if cutoff != 0 {
      var i :| 0 <= i < |stream| && stream[i].symbiot == symbiot && stream[i].id == cutoff;
      assert (stream + [item])[i].id == cutoff;
    }
    TailNext(stream, item, symbiot, cutoff);
    if item.symbiot == symbiot {
      assert item.id > cutoff;
      ArrivalCovered(stream, gists, item);
    } else {
      TailNext(stream, item, symbiot, 0);
    }
  }

  lemma MemoryAppends(stream: seq<Item>, item: Item, gists: seq<Gist>)
    requires MemoryOk(stream, gists) && CanAppend(stream, item.id, item.symbiot)
    ensures MemoryOk(stream + [item], gists)
  {
    var longer := stream + [item];
    forall symbiot
      ensures Remembered(longer, gists, symbiot)
    {
      assert Remembered(stream, gists, symbiot);
      TailIsQuiet(stream, item, gists, symbiot);
    }
  }

  lemma FoldAppends(fold: Fold, stream: seq<Item>, item: Item, gists: seq<Gist>)
    requires MemoryOk(stream, gists) && CanAppend(stream, item.id, item.symbiot) && FoldOk(fold, stream, gists)
    ensures FoldOk(fold, stream + [item], gists)
  {
    if fold.HasTurns? {
      assert Remembered(stream, gists, fold.symbiot);
      TailIsQuiet(stream, item, gists, fold.symbiot);
      var tail := Tail(stream, fold.symbiot, CutoffOf(fold.prior));
      var longer := Tail(stream + [item], fold.symbiot, CutoffOf(fold.prior));
      assert longer[..|fold.turns|] == tail[..|fold.turns|];
    }
  }

  lemma FoldersAppend(folders: map<int, Fold>, stream: seq<Item>, item: Item, gists: seq<Gist>)
    requires MemoryOk(stream, gists) && CanAppend(stream, item.id, item.symbiot) && FoldersOk(folders, stream, gists)
    ensures FoldersOk(folders, stream + [item], gists)
  {
    forall f | f in folders
      ensures FoldOk(folders[f], stream + [item], gists)
    {
      FoldAppends(folders[f], stream, item, gists);
    }
  }

  // ----- what a new missive leaves true elsewhere

  lemma EnrichmentsUnmoved(enrichments: Enrichments, intake: Intake, missives: Missives, x: int, missive: Missive)
    requires EnrichmentsOk(enrichments, intake, missives) && x !in missives && !missive.origin.FollowUp?
    ensures EnrichmentsOk(enrichments, intake, missives[x := missive])
  {
    forall m | m in enrichments
      ensures EnrichmentOk(enrichments, m, intake, missives[x := missive])
    {
      assert EnrichmentOk(enrichments, m, intake, missives);
    }
    var missives' := missives[x := missive];
    forall y | y in missives'
      ensures FollowUpOk(enrichments, missives', y)
    {
      assert y != x ==> FollowUpOk(enrichments, missives, y);
    }
  }

  lemma RemindersUnmoved(reminders: Reminders, missives: Missives, x: int, missive: Missive)
    requires RemindersOk(reminders, missives) && x !in missives && !missive.origin.Fired?
    ensures RemindersOk(reminders, missives[x := missive])
  {
    var missives' := missives[x := missive];
    forall r | r in reminders
      ensures FiredOk(reminders, missives', r)
    {
      assert FiredOk(reminders, missives, r);
      if reminders[r].firedAt.Some? {
        var y :| y in missives && missives[y] == Missive(reminders[r].symbiot, reminders[r].body, Fired(r));
        assert missives'[y] == missives[y];
      }
    }
    forall y | y in missives'
      ensures FiringOk(reminders, missives', y)
    {
      assert y != x ==> FiringOk(reminders, missives, y);
    }
  }

  // ----- the message steps

  lemma ReceiveKeeps(s: State, m: int, text: string, sender: Option<int>, item: int, now: real)
    requires Inv(s)
    ensures Inv(DoReceive(s, m, text, sender, item, now))
    ensures Walks(s.intake, DoReceive(s, m, text, sender, item, now).intake, s.max)
  {
    WalkStays(s.intake, s.max);
    if m !in s.intake && text != "" {
      WalkRecord(s.intake, s.max, m, text, sender, now);
      if sender.None? {
        QuietWalkKeeps(s, s.intake[m := Fresh(text, sender, now)]);
      } else if CanAppend(s.stream, item, sender.value) {
        WalkKeeps(s, s.intake[m := Fresh(text, sender, now)]);
        ReceivedOnStream(s.stream, s.intake, s.max, s.missives, m, text, sender.value, item, now);
        MemoryAppends(s.stream, SaidItem(item, sender.value, m, text, now), s.gists);
        FoldersAppend(s.folders, s.stream, SaidItem(item, sender.value, m, text, now), s.gists);
      }
    }
  }

  lemma ClaimKeeps(s: State, w: int, m: int, now: real)
    requires Inv(s)
    ensures Inv(DoClaim(s, w, m, now))
    ensures Walks(s.intake, DoClaim(s, w, m, now).intake, s.max)
  {
    WalkStays(s.intake, s.max);
    if w !in s.workers && m in s.intake && s.intake[m].status == Received {
      WalkOne(s.intake, s.max, m, Claimed(s.intake[m], now));
      QuietWalkKeeps(s, s.intake[m := Claimed(s.intake[m], now)]);
    }
  }

  lemma FailKeeps(s: State, w: int, reason: string, now: real)
    requires Inv(s) && w in s.workers && StillWorking(s, s.workers[w].message)
    ensures var m := s.workers[w].message;
            Inv(s.(workers := s.workers - {w}).(intake := s.intake[m := FailedWith(s.intake[m], reason, now)]))
    ensures var m := s.workers[w].message;
            Walks(s.intake, s.intake[m := FailedWith(s.intake[m], reason, now)], s.max)
  {
    var m := s.workers[w].message;
    WalkOne(s.intake, s.max, m, FailedWith(s.intake[m], reason, now));
    QuietWalkKeeps(s, s.intake[m := FailedWith(s.intake[m], reason, now)]);
  }

  lemma AuthedAnswerKeeps(s: State, w: int, answer: string, symbiot: int, item: int, now: real)
    requires Inv(s) && w in s.workers && StillWorking(s, s.workers[w].message)
    requires s.workers[w].symbiot == Some(symbiot) && CanAppend(s.stream, item, symbiot) && answer != ""
    ensures var m := s.workers[w].message;
            Inv(s.(workers := s.workers - {w},
                   intake := s.intake[m := AnsweredWith(s.intake[m], answer, now)],
                   stream := s.stream + [RepliedItem(item, symbiot, m, answer, now)]))
  {
    var m := s.workers[w].message;
    assert Knows(s.workers[w], s.intake);
    WalkOne(s.intake, s.max, m, AnsweredWith(s.intake[m], answer, now));
    WalkKeeps(s, s.intake[m := AnsweredWith(s.intake[m], answer, now)]);
    AnsweredOnStream(s.stream, s.intake, s.max, s.missives, m, answer, symbiot, item, now);
    MemoryAppends(s.stream, RepliedItem(item, symbiot, m, answer, now), s.gists);
    FoldersAppend(s.folders, s.stream, RepliedItem(item, symbiot, m, answer, now), s.gists);
  }

  lemma AnonymousAnswerKeeps(s: State, w: int, answer: string, now: real)
    requires Inv(s) && w in s.workers && StillWorking(s, s.workers[w].message) && s.workers[w].symbiot.None?
    ensures var m := s.workers[w].message;
            Inv(s.(workers := s.workers - {w}, intake := s.intake[m := AnsweredWith(s.intake[m], answer, now)]))
  {
    var m := s.workers[w].message;
    assert Knows(s.workers[w], s.intake);
    WalkOne(s.intake, s.max, m, AnsweredWith(s.intake[m], answer, now));
    QuietWalkKeeps(s, s.intake[m := AnsweredWith(s.intake[m], answer, now)]);
  }

  lemma AnswerKeeps(s: State, w: int, answer: string, item: int, now: real)
    requires Inv(s) && w in s.workers && StillWorking(s, s.workers[w].message)
    ensures Inv(DoFinish(s, w, Completed(answer), item, now))
    ensures Walks(s.intake, DoFinish(s, w, Completed(answer), item, now).intake, s.max)
  {
    var h, s' := s.workers[w], DoFinish(s, w, Completed(answer), item, now);
    if answer == "" || (h.symbiot.Some? && !CanAppend(s.stream, item, h.symbiot.value)) {
      WalkStays(s.intake, s.max);
      assert s' == s;
    } else {
      WalkOne(s.intake, s.max, h.message, AnsweredWith(s.intake[h.message], answer, now));
      if h.symbiot.None? {
        AnonymousAnswerKeeps(s, w, answer, now);
      } else {
        AuthedAnswerKeeps(s, w, answer, h.symbiot.value, item, now);
      }
    }
  }

  lemma FinishKeeps(s: State, w: int, report: Report, item: int, now: real)
    requires Inv(s)
    ensures Inv(DoFinish(s, w, report, item, now))
    ensures Walks(s.intake, DoFinish(s, w, report, item, now).intake, s.max)
  {
    WalkStays(s.intake, s.max);
    if w in s.workers && StillWorking(s, s.workers[w].message) {
      match report
      case Completed(answer) => AnswerKeeps(s, w, answer, item, now);
      case TimedOut => FailKeeps(s, w, "deadline exceeded", now);
      case Crashed(trace) => FailKeeps(s, w, trace, now);
    }
  }

  lemma OverdueKeeps(s: State, ceiling: real, now: real)
    requires Inv(s)
    ensures Inv(s.(intake := OverdueFailed(s.intake, ceiling, now)))
    ensures Walks(s.intake, OverdueFailed(s.intake, ceiling, now), s.max)
  {
    var after := OverdueFailed(s.intake, ceiling, now);
    forall m | m in s.intake
      ensures Walked(s.intake, after, s.max, m)
    {
    }
    QuietWalkKeeps(s, after);
  }

  lemma RequeueKeeps(s: State, now: real)
    requires Inv(s)
    ensures Inv(s.(intake := FailedRequeued(s.intake, s.max, now)))
    ensures Walks(s.intake, FailedRequeued(s.intake, s.max, now), s.max)
  {
    var after := FailedRequeued(s.intake, s.max, now);
    forall m | m in s.intake
      ensures Walked(s.intake, after, s.max, m)
    {
    }
    QuietWalkKeeps(s, after);
  }

  lemma AbandonKeeps(s: State, now: real)
    requires Inv(s)
    ensures Inv(s.(intake := ExhaustedAbandoned(s.intake, s.max, now)))
    ensures Walks(s.intake, ExhaustedAbandoned(s.intake, s.max, now), s.max)
  {
    var after := ExhaustedAbandoned(s.intake, s.max, now);
    forall m | m in s.intake
      ensures Walked(s.intake, after, s.max, m)
    {
    }
    QuietWalkKeeps(s, after);
  }

  lemma DeliverKeeps(s: State, ids: set<int>, now: real)
    requires Inv(s)
    ensures Inv(s.(intake := DeliveryMarked(s.intake, ids, now)))
    ensures Walks(s.intake, DeliveryMarked(s.intake, ids, now), s.max)
  {
    var after := DeliveryMarked(s.intake, ids, now);
    forall m | m in s.intake
      ensures Walked(s.intake, after, s.max, m)
    {
    }
    QuietWalkKeeps(s, after);
  }

  lemma RestartKeeps(s: State, now: real)
    requires Inv(s)
    ensures Inv(DoRestart(s, now))
    ensures Walks(s.intake, DoRestart(s, now).intake, s.max)
  {
    OrphansWalk(s.intake, s.max, now);
    var settled := s.(intake := OrphansAbandoned(OrphansRequeued(s.intake, s.max, now), s.max, now));
    QuietWalkKeeps(s, settled.intake);
    HandsFreed(settled);
  }

  lemma OrphansWalk(intake: Intake, max: int, now: real)
    requires RowsOk(intake, max)
    ensures var after := OrphansAbandoned(OrphansRequeued(intake, max, now), max, now);
            Walks(intake, after, max) && NothingToMirror(intake, after)
  {
    var after := OrphansAbandoned(OrphansRequeued(intake, max, now), max, now);
    forall m | m in intake
      ensures Walked(intake, after, max, m)
    {
    }
  }

  /** Every thread at once gone, with whatever it held. */
  lemma HandsFreed(s: State)
    requires Inv(s)
    ensures Inv(s.(workers := map[], folders := map[], passes := map[], firers := map[], filers := map[]))
  {
  }

  // ----- raising a line

  /** What a new missive that is neither a firing nor a follow-up leaves as it was. */
  lemma RaiseKeeps(s: State, x: int, missive: Missive, item: int, now: real)
    requires Inv(s) && x !in s.missives && CanAppend(s.stream, item, missive.symbiot) && missive.body != ""
    ensures var row := RaisedItem(item, missive.symbiot, x, missive.body, now);
            && StreamOk(s.stream + [row], s.intake, s.missives[x := missive])
            && MemoryOk(s.stream + [row], s.gists)
            && FoldersOk(s.folders, s.stream + [row], s.gists)
    ensures !missive.origin.FollowUp? ==> EnrichmentsOk(s.enrichments, s.intake, s.missives[x := missive])
    ensures !missive.origin.Fired? ==> RemindersOk(s.book.reminders, s.missives[x := missive])
  {
    var row := RaisedItem(item, missive.symbiot, x, missive.body, now);
    RaisedOnStream(s.stream, s.intake, s.max, s.missives, x, missive, item, now);
    MemoryAppends(s.stream, row, s.gists);
    FoldersAppend(s.folders, s.stream, row, s.gists);
    if !missive.origin.FollowUp? { EnrichmentsUnmoved(s.enrichments, s.intake, s.missives, x, missive); }
    if !missive.origin.Fired? { RemindersUnmoved(s.book.reminders, s.missives, x, missive); }
  }

  lemma TellKeeps(s: State, x: int, symbiot: int, body: string, item: int, now: real)
    requires Inv(s)
    ensures Inv(DoTell(s, x, symbiot, body, item, now))
  {
    if x !in s.missives && body != "" && CanAppend(s.stream, item, symbiot) {
      RaiseKeeps(s, x, Missive(symbiot, body, Told), item, now);
    }
  }

  // ----- the reminder steps

  /** A change that fires nothing and touches no row a firing holds. */
  ghost predicate Unhurried(before: Reminders, after: Reminders, firers: map<int, int>) {
    && Turns(before, after) && BookOk(after)
    && (forall r :: r in before && r in after ==> after[r].firedAt == before[r].firedAt)
    && (forall d :: d in firers && firers[d] in before && firers[d] in after ==> after[firers[d]] == before[firers[d]])
  }

  lemma UnhurriedKeeps(s: State, after: Reminders)
    requires Inv(s) && Unhurried(s.book.reminders, after, s.firers)
    ensures RemindersOk(after, s.missives) && FirersOk(s.firers, after)
  {
    var before, missives := s.book.reminders, s.missives;
    forall r | r in after
      ensures FiredOk(after, missives, r)
    {
      if r in before {
        assert Stepped(before, after, r) && FiredOk(before, missives, r);
      }
    }
    forall x | x in missives
      ensures FiringOk(after, missives, x)
    {
      assert FiringOk(before, missives, x);
      if missives[x].origin.Fired? {
        assert Stepped(before, after, missives[x].origin.reminder);
      }
    }
    forall d | d in s.firers
      ensures s.firers[d] in after && LiveReminder(after[s.firers[d]])
    {
      assert Stepped(before, after, s.firers[d]);
    }
  }

  lemma BookKeeps(s: State, book: Book)
    requires Inv(s) && Unhurried(s.book.reminders, book.reminders, s.firers)
    ensures Inv(s.(book := book))
  {
    UnhurriedKeeps(s, book.reminders);
  }

  lemma RemindKeeps(s: State, r: int, symbiot: int, body: string, fireAt: real)
    requires Inv(s)
    ensures Inv(DoRemind(s, r, symbiot, body, fireAt))
  {
    if r !in s.book.reminders && body != "" {
      TurnsCreated(s.book.reminders, r, symbiot, body, fireAt, None);
      CreatedKeepsBook(s.book.reminders, r, symbiot, body, fireAt, None);
      BookKeeps(s, s.book.(reminders := Created(s.book.reminders, r, symbiot, body, fireAt, None)));
    }
  }

  lemma CancelKeeps(s: State, r: int, symbiot: int, now: real)
    requires Inv(s)
    ensures Inv(DoCancel(s, r, symbiot, now))
  {
    if !Locked(s, Some(r)) {
      CancelTurns(s.book.reminders, symbiot, r, now);
      BookKeeps(s, s.book.(reminders := Cancelled(s.book.reminders, symbiot, r, now)));
    }
  }

  lemma EditKeeps(s: State, r: int, symbiot: int, body: Option<string>, fireAt: Option<real>)
    requires Inv(s)
    ensures Inv(DoEdit(s, r, symbiot, body, fireAt))
  {
    if !Locked(s, Some(r)) && body != Some("") {
      EditTurns(s.book.reminders, symbiot, r, body, fireAt);
      BookKeeps(s, s.book.(reminders := Edited(s.book.reminders, symbiot, r, body, fireAt)));
    }
  }

  lemma SetUnhurried(
    s: State, symbiot: int, message: int, r: int, meant: Option<int>, body: string, fireAt: Option<real>, now: real)
    requires Inv(s) && r !in s.book.reminders
    ensures Unhurried(s.book.reminders,
                      Schedule(s.book, symbiot, message, r, meant, body, fireAt, now).0.reminders, s.firers)
  {
    ScheduleOnce(s.book, symbiot, message, r, meant, body, fireAt, now);
  }

  lemma DropUnhurried(s: State, symbiot: int, meant: Option<int>, now: real)
    requires Inv(s) && !Locked(s, meant)
    ensures Unhurried(s.book.reminders, CallOff(s.book, symbiot, meant, now).0.reminders, s.firers)
  {
    CallOffTurns(s.book, symbiot, meant, now);
  }

  lemma MoveUnhurried(s: State, symbiot: int, meant: Option<int>, body: string, fireAt: Option<real>, now: real)
    requires Inv(s) && !Locked(s, meant)
    ensures Unhurried(s.book.reminders, Change(s.book, symbiot, meant, body, fireAt, now).0.reminders, s.firers)
  {
    ChangeTurns(s.book, symbiot, meant, body, fireAt, now);
  }

  lemma CalledUnhurried(s: State, symbiot: int, message: int, call: Call, now: real)
    requires Inv(s)
    ensures Unhurried(s.book.reminders, Called(s, symbiot, message, call, now).reminders, s.firers)
  {
    TurnsStay(s.book.reminders);
    match call
    case Set(r, meant, body, fireAt) =>
      if r !in s.book.reminders { SetUnhurried(s, symbiot, message, r, meant, body, fireAt, now); }
    case Drop(meant) =>
      if !Locked(s, meant) { DropUnhurried(s, symbiot, meant, now); }
    case Move(meant, body, fireAt) =>
      if !Locked(s, meant) { MoveUnhurried(s, symbiot, meant, body, fireAt, now); }
  }

  lemma ActKeeps(s: State, w: int, call: Call, now: real)
    requires Inv(s)
    ensures Inv(DoAct(s, w, call, now))
    ensures Walks(s.intake, DoAct(s, w, call, now).intake, s.max)
  {
    WalkStays(s.intake, s.max);
    if w in s.workers && s.workers[w].symbiot.Some? {
      var symbiot, message := s.workers[w].symbiot.value, s.workers[w].message;
      CalledUnhurried(s, symbiot, message, call, now);
      BookKeeps(s, Called(s, symbiot, message, call, now));
    }
  }

  lemma ClaimDueKeeps(s: State, d: int, r: int, now: real)
    requires Inv(s)
    ensures Inv(DoClaimDue(s, d, r, now))
  {
    if !(d in s.firers || r !in s.book.reminders || !Due(s.book.reminders[r], now) || r in s.firers.Values) {
      FirersClaim(s.firers, s.book.reminders, d, r);
    }
  }

  lemma FirersClaim(firers: map<int, int>, reminders: Reminders, d: int, r: int)
    requires FirersOk(firers, reminders) && d !in firers
    requires r in reminders && LiveReminder(reminders[r]) && r !in firers.Values
    ensures FirersOk(firers[d := r], reminders)
  {
    forall c | c in firers
      ensures firers[c] != r
    {
      assert firers[c] in firers.Values;
    }
  }

  /** Under its row lock the reminder is live, so the unguarded stamp is legal, and its missive is the first. */
  lemma FireKeeps(s: State, d: int, x: int, item: int, now: real)
    requires Inv(s)
    ensures Inv(DoCommitFire(s, d, x, item, now))
  {
    if d in s.firers && s.firers[d] in s.book.reminders {
      var r := s.firers[d];
      var row := s.book.reminders[r];
      if x !in s.missives && CanAppend(s.stream, item, row.symbiot) {
        RaiseKeeps(s, x, Missive(row.symbiot, row.body, Fired(r)), item, now);
        StampNeedsLive(s.book.reminders, r, now);
        FiredKeeps(s.book.reminders, s.missives, r, x, now);
        FirersAfter(s.firers, s.book.reminders, d, now);
      }
    }
  }

  lemma NotYetFired(reminders: Reminders, missives: Missives, r: int, z: int)
    requires RemindersOk(reminders, missives) && r in reminders && LiveReminder(reminders[r]) && z in missives
    ensures missives[z].origin != Fired(r)
  {
    assert FiringOk(reminders, missives, z);
  }

  lemma FiredKeeps(reminders: Reminders, missives: Missives, r: int, x: int, now: real)
    requires RemindersOk(reminders, missives) && r in reminders && LiveReminder(reminders[r]) && x !in missives
    requires BookOk(Stamped(reminders, r, now))
    ensures RemindersOk(Stamped(reminders, r, now),
                        missives[x := Missive(reminders[r].symbiot, reminders[r].body, Fired(r))])
  {
    var reminders' := Stamped(reminders, r, now);
    var missives' := missives[x := Missive(reminders[r].symbiot, reminders[r].body, Fired(r))];
    forall q | q in reminders'
      ensures FiredOk(reminders', missives', q)
    {
      if q == r {
        assert missives'[x] == Missive(reminders'[r].symbiot, reminders'[r].body, Fired(r));
      } else {
        assert FiredOk(reminders, missives, q);
        if reminders[q].firedAt.Some? {
          var y :| y in missives && missives[y] == Missive(reminders[q].symbiot, reminders[q].body, Fired(q));
          assert missives'[y] == missives[y];
        }
      }
    }
    forall y | y in missives'
      ensures FiringOk(reminders', missives', y)
    {
      if y == x {
        forall z | z in missives
          ensures missives[z].origin != Fired(r)
        {
          NotYetFired(reminders, missives, r, z);
        }
      } else {
        assert FiringOk(reminders, missives, y);
      }
    }
  }

  lemma FirersAfter(firers: map<int, int>, reminders: Reminders, d: int, now: real)
    requires FirersOk(firers, reminders) && d in firers
    ensures FirersOk(firers - {d}, Stamped(reminders, firers[d], now))
  {
  }

  // ----- the compression sweep

  lemma LockFoldKeeps(s: State, f: int, symbiot: int)
    requires Inv(s)
    ensures Inv(DoLockFold(s, f, symbiot))
  {
    var s' := DoLockFold(s, f, symbiot);
    assert s' == s.(folders := s'.folders);
    if s' != s {
      FoldersTaken(s.folders, s.stream, s.gists, f, symbiot);
    }
    FoldersReplaced(s, s'.folders);
  }

  lemma FoldersTaken(folders: map<int, Fold>, stream: seq<Item>, gists: seq<Gist>, f: int, symbiot: int)
    requires FoldersOk(folders, stream, gists) && f !in folders && !FoldHeld(folders, symbiot)
    ensures FoldersOk(folders[f := Owned(symbiot)], stream, gists)
  {
  }

  lemma FoldersReplaced(s: State, folders: map<int, Fold>)
    requires Inv(s) && FoldersOk(folders, s.stream, s.gists)
    ensures Inv(s.(folders := folders))
  {
  }

  lemma ReadGistKeeps(s: State, f: int)
    requires Inv(s)
    ensures Inv(DoReadGist(s, f))
  {
    if f in s.folders && s.folders[f].Owned? {
      var symbiot := s.folders[f].symbiot;
      FoldersWith(s.folders, s.stream, s.gists, f, HasGist(symbiot, CurrentGist(s.gists, symbiot)));
    }
  }

  lemma PendingIsHead(stream: seq<Item>, symbiot: int, budget: int, cutoff: int)
    requires PendingForFold(stream, symbiot, budget, cutoff).0 != []
    ensures IsHead(PendingForFold(stream, symbiot, budget, cutoff).0, PendingForFold(stream, symbiot, budget, cutoff).1,
                   Tail(stream, symbiot, cutoff))
  {
    PendingIs(stream, symbiot, budget, cutoff);
  }

  lemma ReadPendingKeeps(s: State, f: int, budget: int)
    requires Inv(s)
    ensures Inv(DoReadPending(s, f, budget))
  {
    if f in s.folders && s.folders[f].HasGist? {
      var fold := s.folders[f];
      var turns := PendingForFold(s.stream, fold.symbiot, budget, CutoffOf(fold.prior)).0;
      if turns == [] {
        FoldersWithout(s.folders, s.stream, s.gists, f);
      } else {
        PendingIsHead(s.stream, fold.symbiot, budget, CutoffOf(fold.prior));
        FoldersWith(s.folders, s.stream, s.gists, f,
                    HasTurns(fold.symbiot, fold.prior, turns,
                             PendingForFold(s.stream, fold.symbiot, budget, CutoffOf(fold.prior)).1));
      }
    }
  }

  lemma FoldersWith(folders: map<int, Fold>, stream: seq<Item>, gists: seq<Gist>, f: int, fold: Fold)
    requires FoldersOk(folders, stream, gists) && f in folders && folders[f].symbiot == fold.symbiot
    requires FoldOk(fold, stream, gists)
    ensures FoldersOk(folders[f := fold], stream, gists)
  {
  }

  lemma FoldersWithout(folders: map<int, Fold>, stream: seq<Item>, gists: seq<Gist>, f: int)
    requires FoldersOk(folders, stream, gists)
    ensures FoldersOk(folders - {f}, stream, gists)
  {
  }

  /** A Gist appended for one symbiot leaves every other symbiot's memory, and every other fold, as it was. */
  lemma OthersUnmoved(stream: seq<Item>, gists: seq<Gist>, gist: Gist, symbiot: int)
    requires symbiot != gist.symbiot && Remembered(stream, gists, symbiot)
    ensures Remembered(stream, gists + [gist], symbiot)
    ensures CurrentGist(gists + [gist], symbiot) == CurrentGist(gists, symbiot)
  {
    GistNext(gists, gist, symbiot);
  }

  /** The Gist a fold commits is the fold of the oldest k turns of the tail as it stands. */
  lemma CommitIsFold(stream: seq<Item>, gists: seq<Gist>, fold: Fold, text: string)
    requires fold.HasTurns? && FoldOk(fold, stream, gists)
    ensures var tail := Tail(stream, fold.symbiot, Cutoff(gists, fold.symbiot));
            var k := |fold.turns|;
            && 0 < k <= |tail| && fold.reached == tail[k - 1].id
            && Gist(fold.symbiot, text, fold.reached, AbsorbedBy(fold.prior) + fold.turns)
               == Folded(gists, fold.symbiot, tail[..k], tail[k - 1].id, text)
  {
    var k := |fold.turns|;
    assert fold.turns[k - 1] == Tail(stream, fold.symbiot, Cutoff(gists, fold.symbiot))[k - 1];
  }

  /** What a fold commits is what the reader would have it be: the turns it took are the oldest still verbatim. */
  lemma CommitRemembered(stream: seq<Item>, gists: seq<Gist>, fold: Fold, text: string)
    requires InOrder(stream) && Remembered(stream, gists, fold.symbiot)
    requires fold.HasTurns? && FoldOk(fold, stream, gists)
    ensures Remembered(stream, gists + [Gist(fold.symbiot, text, fold.reached, AbsorbedBy(fold.prior) + fold.turns)],
                       fold.symbiot)
    ensures fold.reached > Cutoff(gists, fold.symbiot)
  {
    CommitIsFold(stream, gists, fold, text);
    PrefixFoldCovers(stream, gists, fold.symbiot, |fold.turns|, text);
    FoldCutoffKnown(stream, gists, fold.symbiot, |fold.turns|, text);
  }

  lemma FoldCutoffKnown(stream: seq<Item>, gists: seq<Gist>, symbiot: int, k: nat, text: string)
    requires 0 < k <= |Tail(stream, symbiot, Cutoff(gists, symbiot))|
    ensures var tail := Tail(stream, symbiot, Cutoff(gists, symbiot));
            CutoffKnown(stream, gists + [Folded(gists, symbiot, tail[..k], tail[k - 1].id, text)], symbiot)
  {
    var tail := Tail(stream, symbiot, Cutoff(gists, symbiot));
    GistNext(gists, Folded(gists, symbiot, tail[..k], tail[k - 1].id, text), symbiot);
    TailHoldsAt(stream, symbiot, Cutoff(gists, symbiot), k - 1);
    var i :| 0 <= i < |stream| && stream[i] == tail[k - 1];
  }

  /** The current Gist is the last of its symbiot's, so it is at or past every other. */
  lemma {:induction false} CurrentIsLatest(gists: seq<Gist>, i: nat)
    requires AllAdvance(gists) && i < |gists|
    ensures CurrentGist(gists, gists[i].symbiot).Some?
    ensures var g := CurrentGist(gists, gists[i].symbiot).value;
            gists[i].cutoff <= g.cutoff && gists[i].absorbed <= g.absorbed
  {
    var last := |gists| - 1;
    if gists[last].symbiot == gists[i].symbiot {
      if i < last {
        assert Advances(gists[i], gists[last]);
      }
    } else {
      var front := gists[..last];
      forall a, b | 0 <= a < b < |front|
        ensures Advances(front[a], front[b])
      {
        assert Advances(gists[a], gists[b]);
      }
      CurrentIsLatest(front, i);
    }
  }

  lemma CommitAdvances(gists: seq<Gist>, fold: Fold, text: string)
    requires AllAdvance(gists) && fold.HasTurns? && fold.prior == CurrentGist(gists, fold.symbiot)
    requires fold.turns != [] && fold.reached > Cutoff(gists, fold.symbiot)
    ensures AllAdvance(gists + [Gist(fold.symbiot, text, fold.reached, AbsorbedBy(fold.prior) + fold.turns)])
  {
    var gist := Gist(fold.symbiot, text, fold.reached, AbsorbedBy(fold.prior) + fold.turns);
    var longer := gists + [gist];
    forall i, j | 0 <= i < j < |longer|
      ensures Advances(longer[i], longer[j])
    {
      if j < |gists| {
        assert Advances(gists[i], gists[j]);
      } else if gists[i].symbiot == fold.symbiot {
        CurrentIsLatest(gists, i);
        assert AbsorbedBy(fold.prior) < gist.absorbed;
      }
    }
  }

  lemma CommitKeepsFolders(folders: map<int, Fold>, stream: seq<Item>, gists: seq<Gist>, f: int, gist: Gist)
    requires FoldersOk(folders, stream, gists) && f in folders && folders[f].symbiot == gist.symbiot
    ensures FoldersOk(folders - {f}, stream, gists + [gist])
  {
    forall g | g in folders - {f}
      ensures FoldOk((folders - {f})[g], stream, gists + [gist])
    {
      assert folders[g].symbiot != gist.symbiot;
      GistNext(gists, gist, folders[g].symbiot);
    }
  }

  lemma CommitFoldKeeps(s: State, f: int, text: string)
    requires Inv(s)
    ensures Inv(DoCommitFold(s, f, text))
  {
    if f in s.folders && s.folders[f].HasTurns? {
      var fold := s.folders[f];
      var gist := Gist(fold.symbiot, text, fold.reached, AbsorbedBy(fold.prior) + fold.turns);
      assert FoldOk(fold, s.stream, s.gists) && Remembered(s.stream, s.gists, fold.symbiot);
      CommitRemembered(s.stream, s.gists, fold, text);
      CommitAdvances(s.gists, fold, text);
      CommitKeepsFolders(s.folders, s.stream, s.gists, f, gist);
      var longer := s.gists + [gist];
      forall symbiot
        ensures Remembered(s.stream, longer, symbiot)
      {
        assert Remembered(s.stream, s.gists, symbiot);
        if symbiot != fold.symbiot { OthersUnmoved(s.stream, s.gists, gist, symbiot); }
      }
    }
  }

  // ----- the enrichment sweep

  lemma ReadBurstKeeps(s: State, e: int, symbiot: int, members: seq<int>)
    requires Inv(s)
    ensures Inv(DoReadBurst(s, e, symbiot, members))
  {
    if DoReadBurst(s, e, symbiot, members) != s {
      assert PassOk(Pass(symbiot, members, false), s.intake);
    }
  }

  lemma LockBurstKeeps(s: State, e: int)
    requires Inv(s)
    ensures Inv(DoLockBurst(s, e))
  {
    if e in s.passes {
      PassesWith(s.passes, s.intake, e, s.passes[e].(locked := true));
      PassesReplaced(s, s.passes[e := s.passes[e].(locked := true)]);
      PassesReplaced(s, s.passes - {e});
    }
  }

  lemma PassesReplaced(s: State, passes: map<int, Pass>)
    requires Inv(s) && PassesOk(passes, s.intake)
    ensures Inv(s.(passes := passes))
  {
  }

  lemma PassesWith(passes: map<int, Pass>, intake: Intake, e: int, p: Pass)
    requires PassesOk(passes, intake)
    requires e in passes && p.members == passes[e].members && p.symbiot == passes[e].symbiot
    ensures PassesOk(passes[e := p], intake)
    ensures PassesOk(passes - {e}, intake)
  {
    assert PassOk(passes[e], intake);
  }

  lemma {:induction false} RecordedAt(
    enrichments: Enrichments, members: seq<int>, symbiot: int, missive: Option<int>, echo: bool, anchor: int, m: int)
    ensures var after := RecordedAll(enrichments, members, symbiot, missive, echo, anchor);
            && (m in after <==> m in enrichments || m in members)
            && (m in members ==> after[m] == RowFor(m, symbiot, missive, echo, anchor))
            && (m !in members && m in enrichments ==> after[m] == enrichments[m])
  {
    if members != [] {
      var front, last := members[..|members| - 1], members[|members| - 1];
      RecordedAt(enrichments, front, symbiot, missive, echo, anchor, m);
      assert members == front + [last];
    }
  }

  lemma PassMember(p: Pass, intake: Intake, m: int)
    requires PassOk(p, intake) && m in p.members
    ensures m in intake && intake[m].status == Answered && intake[m].symbiot == Some(p.symbiot)
  {
  }

  /** A pass's rows, beside everything recorded before. */
  lemma RecordedOk(
    enrichments: Enrichments, intake: Intake, missives: Missives, missives': Missives, p: Pass, missive: Option<int>,
    echo: bool, m: int)
    requires EnrichmentsOk(enrichments, intake, missives) && PassOk(p, intake)
    requires p.members != [] && Unrecorded(enrichments, p.members)
    requires MissivesGrow(missives, missives')
    requires !(missive.Some? && echo)
    requires missive.Some? ==>
               && missive.value in missives'
               && missives'[missive.value].origin == FollowUp(p.members[|p.members| - 1])
               && missives'[missive.value].symbiot == p.symbiot
    requires m in RecordedAll(enrichments, p.members, p.symbiot, missive, echo, p.members[|p.members| - 1])
    ensures EnrichmentOk(RecordedAll(enrichments, p.members, p.symbiot, missive, echo, p.members[|p.members| - 1]),
                         m, intake, missives')
  {
    var anchor := p.members[|p.members| - 1];
    RecordedAt(enrichments, p.members, p.symbiot, missive, echo, anchor, m);
    RecordedAt(enrichments, p.members, p.symbiot, missive, echo, anchor, anchor);
    if m in p.members {
      PassMember(p, intake, m);
    } else {
      assert EnrichmentOk(enrichments, m, intake, missives);
      RecordedAt(enrichments, p.members, p.symbiot, missive, echo, anchor, enrichments[m].anchor);
      if enrichments[m].missive.Some? {
        var x: int := enrichments[m].missive.value;
        assert x in missives && missives'[x] == missives[x];
      }
    }
  }

  lemma FollowUpsOk(
    enrichments: Enrichments, intake: Intake, missives: Missives, p: Pass, missive: Option<int>, echo: bool, x: int)
    requires EnrichmentsOk(enrichments, intake, missives)
    requires p.members != [] && Unrecorded(enrichments, p.members) && x in missives
    ensures FollowUpOk(RecordedAll(enrichments, p.members, p.symbiot, missive, echo, p.members[|p.members| - 1]),
                       missives, x)
  {
    assert FollowUpOk(enrichments, missives, x);
    if missives[x].origin.FollowUp? {
      RecordedAt(enrichments, p.members, p.symbiot, missive, echo, p.members[|p.members| - 1],
                 missives[x].origin.anchor);
    }
  }

  lemma SilentKeeps(enrichments: Enrichments, intake: Intake, missives: Missives, p: Pass, echo: bool)
    requires EnrichmentsOk(enrichments, intake, missives) && PassOk(p, intake)
    requires p.members != [] && Unrecorded(enrichments, p.members)
    ensures EnrichmentsOk(RecordedAll(enrichments, p.members, p.symbiot, None, echo, p.members[|p.members| - 1]),
                          intake, missives)
  {
    var after := RecordedAll(enrichments, p.members, p.symbiot, None, echo, p.members[|p.members| - 1]);
    forall m | m in after
      ensures EnrichmentOk(after, m, intake, missives)
    {
      RecordedOk(enrichments, intake, missives, missives, p, None, echo, m);
    }
    forall x | x in missives
      ensures FollowUpOk(after, missives, x)
    {
      FollowUpsOk(enrichments, intake, missives, p, None, echo, x);
    }
  }

  lemma SurfacedKeeps(enrichments: Enrichments, intake: Intake, missives: Missives, p: Pass, x: int, body: string)
    requires EnrichmentsOk(enrichments, intake, missives) && PassOk(p, intake)
    requires p.members != [] && Unrecorded(enrichments, p.members) && x !in missives
    ensures var anchor := p.members[|p.members| - 1];
            EnrichmentsOk(RecordedAll(enrichments, p.members, p.symbiot, Some(x), false, anchor),
                          intake, missives[x := Missive(p.symbiot, body, FollowUp(anchor))])
  {
    var anchor := p.members[|p.members| - 1];
    var after := RecordedAll(enrichments, p.members, p.symbiot, Some(x), false, anchor);
    var missives' := missives[x := Missive(p.symbiot, body, FollowUp(anchor))];
    forall m | m in after
      ensures EnrichmentOk(after, m, intake, missives')
    {
      RecordedOk(enrichments, intake, missives, missives', p, Some(x), false, m);
    }
    forall y | y in missives'
      ensures FollowUpOk(after, missives', y)
    {
      if y == x {
        RecordedAt(enrichments, p.members, p.symbiot, Some(x), false, anchor, anchor);
      } else {
        FollowUpsOk(enrichments, intake, missives, p, Some(x), false, y);
      }
    }
  }

  lemma SilentCommitKeeps(s: State, e: int, held: bool)
    requires Inv(s) && e in s.passes
    requires s.passes[e].members != [] && Unrecorded(s.enrichments, s.passes[e].members)
    ensures Inv(SilentCommit(s, e, held))
  {
    assert PassOk(s.passes[e], s.intake);
    SilentKeeps(s.enrichments, s.intake, s.missives, s.passes[e], held);
  }

  lemma SpokenCommitKeeps(s: State, e: int, body: string, x: int, item: int, now: real)
    requires Inv(s) && e in s.passes && body != ""
    requires s.passes[e].members != [] && Unrecorded(s.enrichments, s.passes[e].members)
    ensures Inv(SpokenCommit(s, e, body, x, item, now))
  {
    var p := s.passes[e];
    assert PassOk(p, s.intake);
    if x !in s.missives && CanAppend(s.stream, item, p.symbiot) {
      RaiseKeeps(s, x, Missive(p.symbiot, body, FollowUp(p.members[|p.members| - 1])), item, now);
      SurfacedKeeps(s.enrichments, s.intake, s.missives, p, x, body);
    }
  }

  lemma CommitBurstKeeps(
    s: State, e: int, surface: bool, echo: bool, body: string, x: int, item: int, now: real)
    requires Inv(s)
    ensures Inv(DoCommitBurst(s, e, surface, echo, body, x, item, now))
  {
    if e in s.passes && s.passes[e].locked {
      PassesReplaced(s, s.passes - {e});
      if s.passes[e].members != [] && Unrecorded(s.enrichments, s.passes[e].members) {
        SilentCommitKeeps(s, e, false);
        SilentCommitKeeps(s, e, true);
        if Speaks(surface, body) { SpokenCommitKeeps(s, e, body, x, item, now); }
      }
    }
  }

  // ----- the ingestion sweep

  lemma ReadUnfiledKeeps(s: State, g: int, m: int)
    requires Inv(s)
    ensures Inv(DoReadUnfiled(s, g, m))
  {
  }

  lemma FileKeeps(s: State, g: int, id: int, routed: seq<int>, rank: int -> real, happenedAt: Option<real>)
    requires Inv(s)
    ensures Inv(DoFile(s, g, id, routed, rank, happenedAt))
  {
    if g in s.filers && s.filers[g] in s.intake && id !in s.diary.facts {
      var m := s.filers[g];
      ConceptsOnce(routed, rank);
      FiledOnce(s.diary, id, s.intake[m].text, Concepts(routed, rank), happenedAt, Some(m));
    }
  }

  // ----- every step, every run

  /** A thread that gives up, or dies, takes only what it held with it. */
  lemma LettingGoKeeps(s: State, t: int)
    requires Inv(s)
    ensures Inv(s.(workers := s.workers - {t}))
    ensures Inv(s.(folders := s.folders - {t}))
    ensures Inv(s.(passes := s.passes - {t}))
    ensures Inv(s.(firers := s.firers - {t}))
    ensures Inv(s.(filers := s.filers - {t}))
  {
    FoldersWithout(s.folders, s.stream, s.gists, t);
  }

  lemma MessageStepKeeps(s: State, step: Step)
    requires Inv(s) && OfTheMessages(step)
    ensures Inv(OnMessages(s, step))
    ensures Walks(s.intake, OnMessages(s, step).intake, s.max)
  {
    match step
    case Receive(m, text, sender, item, now) => ReceiveKeeps(s, m, text, sender, item, now);
    case Claim(w, m, now) => ClaimKeeps(s, w, m, now);
    case Act(w, call, now) => ActKeeps(s, w, call, now);
    case Finish(w, report, item, now) => FinishKeeps(s, w, report, item, now);
    case FailOverdue(ceiling, now) => OverdueKeeps(s, ceiling, now);
    case RequeueFailed(now) => RequeueKeeps(s, now);
    case AbandonExhausted(now) => AbandonKeeps(s, now);
    case MarkDelivered(ids, now) => DeliverKeeps(s, ids, now);
    case Restart(now) => RestartKeeps(s, now);
  }

  lemma ReminderStepKeeps(s: State, step: Step)
    requires Inv(s) && OfTheReminders(step)
    ensures Inv(OnReminders(s, step))
  {
    match step
    case Tell(x, symbiot, body, item, now) => TellKeeps(s, x, symbiot, body, item, now);
    case Remind(r, symbiot, body, fireAt) => RemindKeeps(s, r, symbiot, body, fireAt);
    case Cancel(r, symbiot, now) => CancelKeeps(s, r, symbiot, now);
    case Edit(r, symbiot, newBody, newFireAt) => EditKeeps(s, r, symbiot, newBody, newFireAt);
    case ClaimDue(d, r, now) => ClaimDueKeeps(s, d, r, now);
    case CommitFire(d, x, item, now) => FireKeeps(s, d, x, item, now);
  }

  lemma MemoryStepKeeps(s: State, step: Step)
    requires Inv(s) && OfTheMemory(step)
    ensures Inv(OnMemory(s, step))
  {
    match step
    case LockFold(f, symbiot) => LockFoldKeeps(s, f, symbiot);
    case ReadGist(f) => ReadGistKeeps(s, f);
    case ReadPending(f, budget) => ReadPendingKeeps(s, f, budget);
    case CommitFold(f, text) => CommitFoldKeeps(s, f, text);
  }

  lemma DiaryStepKeeps(s: State, step: Step)
    requires Inv(s) && OfTheDiary(step)
    ensures Inv(OnDiary(s, step))
  {
    match step
    case ReadBurst(e, symbiot, members) => ReadBurstKeeps(s, e, symbiot, members);
    case LockBurst(e) => LockBurstKeeps(s, e);
    case CommitBurst(e, surface, echo, body, x, item, now) => CommitBurstKeeps(s, e, surface, echo, body, x, item, now);
    case ReadUnfiled(g, m) => ReadUnfiledKeeps(s, g, m);
    case File(g, id, routed, rank, happenedAt) => FileKeeps(s, g, id, routed, rank, happenedAt);
  }

  lemma LetGoStepKeeps(s: State, step: Step)
    requires Inv(s)
    requires OfLettingGo(step)
    ensures Inv(LetGo(s, step))
  {
    match step
    case Lose(w) => LettingGoKeeps(s, w);
    case EndFold(f) => LettingGoKeeps(s, f);
    case EndPass(e) => LettingGoKeeps(s, e);
    case EndFire(d) => LettingGoKeeps(s, d);
    case EndFiling(g) => LettingGoKeeps(s, g);
  }

  /** Every step of every thread keeps the invariants. */
  lemma StepKeeps(s: State, step: Step)
    requires Inv(s)
    ensures Inv(Apply(s, step))
  {
    if OfTheMessages(step) { MessageStepKeeps(s, step); }
    else if OfTheReminders(step) { ReminderStepKeeps(s, step); }
    else if OfTheMemory(step) { MemoryStepKeeps(s, step); }
    else if OfTheDiary(step) { DiaryStepKeeps(s, step); }
    else { LetGoStepKeeps(s, step); }
  }

  lemma EmptyInv(max: int)
    ensures Inv(Empty(max))
  {
    var s := Empty(max);
    forall symbiot
      ensures Remembered(s.stream, s.gists, symbiot)
    {
    }
  }

  /** Whatever the schedule, every state a run passes through satisfies the invariants. */
  lemma {:induction false} RunKeeps(s: State, steps: seq<Step>)
    requires Inv(s)
    ensures Inv(Exec(s, steps))
  {
    if steps != [] {
      RunKeeps(s, steps[..|steps| - 1]);
      StepKeeps(Exec(s, steps[..|steps| - 1]), steps[|steps| - 1]);
    }
  }
}
