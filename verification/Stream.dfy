/** The conversation stream beside the rows it points at (services/memory/conversation.py:435-485, main.py:410-413,
    services/loop/worker.py:546-559). */
module Stream {
  import opened Prelude
  import opened Tables
  import opened Lifecycle
  import opened Gradient
  import PromptBudget

  ghost predicate HasLine(stream: seq<Item>, line: Line) {
    exists i :: 0 <= i < |stream| && stream[i].line == line
  }

  /** The words of the row a stream line points at. */
  function Words(line: Line, intake: Intake, missives: Missives): Option<string> {
    match line
    case Said(m) => if m in intake then Some(intake[m].text) else None
    case Replied(m) => if m in intake then intake[m].answer else None
    case Raised(x) => if x in missives then Some(missives[x].body) else None
  }

  function Owner(line: Line, intake: Intake, missives: Missives): Option<int> {
    match line
    case Said(m) => if m in intake then intake[m].symbiot else None
    case Replied(m) => if m in intake then intake[m].symbiot else None
    case Raised(x) => if x in missives then Some(missives[x].symbiot) else None
  }

  /** The row resolves to words that exist and are not empty, is its owner's, and was measured from those words. */
  ghost predicate ItemOk(item: Item, intake: Intake, missives: Missives) {
    && Words(item.line, intake, missives).Some? && Words(item.line, intake, missives).value != ""
    && Owner(item.line, intake, missives) == Some(item.symbiot)
    && item.tokens == PromptBudget.CountTokens(Words(item.line, intake, missives).value)
  }

  /** An authed message is on the stream, and so is its answer once it has one. */
  ghost predicate Mirrored(stream: seq<Item>, intake: Intake, m: int)
    requires m in intake
  {
    intake[m].symbiot.Some? ==> HasLine(stream, Said(m)) && (intake[m].answer.Some? ==> HasLine(stream, Replied(m)))
  }

  ghost predicate LinesDistinct(stream: seq<Item>) {
    forall i, j :: 0 <= i < j < |stream| ==> stream[i].line != stream[j].line
  }

  /** A symbiot's message stands before the machine's answer to it. */
  ghost predicate AskedFirst(stream: seq<Item>, j: int)
    requires 0 <= j < |stream|
  {
    stream[j].line.Replied? ==> exists i :: 0 <= i < j && stream[i].line == Said(stream[j].line.message)
  }

  ghost predicate AllItemsOk(stream: seq<Item>, intake: Intake, missives: Missives) {
    forall i :: 0 <= i < |stream| ==> ItemOk(stream[i], intake, missives)
  }

  ghost predicate AllMirrored(stream: seq<Item>, intake: Intake, missives: Missives) {
    && (forall m {:trigger Mirrored(stream, intake, m)} :: m in intake ==> Mirrored(stream, intake, m))
    && (forall x {:trigger HasLine(stream, Raised(x))} :: x in missives ==> HasLine(stream, Raised(x)))
  }

  ghost predicate AllAskedFirst(stream: seq<Item>) {
    forall j {:trigger AskedFirst(stream, j)} :: 0 <= j < |stream| ==> AskedFirst(stream, j)
  }

  ghost predicate StreamOk(stream: seq<Item>, intake: Intake, missives: Missives) {
    && InOrder(stream)
    && LinesDistinct(stream)
    && AllItemsOk(stream, intake, missives)
    && AllMirrored(stream, intake, missives)
    && AllAskedFirst(stream)
  }

  /** Every row of a right stream measures something. */
  lemma AllSpoken(stream: seq<Item>, intake: Intake, missives: Missives)
    requires AllItemsOk(stream, intake, missives)
    ensures Spoken(stream)
  {
    forall i | 0 <= i < |stream|
      ensures stream[i].tokens > 0
    {
      assert ItemOk(stream[i], intake, missives);
    }
  }

  /** The id an identity column may hand a row that becomes visible now, under the id-order assumption. */
  ghost predicate CanAppend(stream: seq<Item>, id: int, symbiot: int) {
    id > 0 && forall i :: 0 <= i < |stream| ==>
      stream[i].id != id && (stream[i].symbiot == symbiot ==> stream[i].id < id)
  }

  /** Missives are only ever added. */
  ghost predicate MissivesGrow(before: Missives, after: Missives) {
    forall x :: x in before ==> x in after && after[x] == before[x]
  }

  /** Nothing that had words loses or changes them. */
  lemma WordsStay(before: Intake, after: Intake, max: int, missives: Missives, missives': Missives, line: Line)
    requires RowsOk(before, max) && Walks(before, after, max) && MissivesGrow(missives, missives')
    requires Words(line, before, missives).Some?
    ensures Words(line, after, missives') == Words(line, before, missives)
    ensures Owner(line, after, missives') == Owner(line, before, missives)
  {
    if !line.Raised? {
      var m := line.message;
      assert RowOkAt(before, max, m) && Walked(before, after, max, m);
      MoveKeepsWords(before[m], after[m], max);
    }
  }

  lemma ItemsStayOk(
    stream: seq<Item>, before: Intake, after: Intake, max: int, missives: Missives, missives': Missives)
    requires RowsOk(before, max) && Walks(before, after, max) && MissivesGrow(missives, missives')
    requires AllItemsOk(stream, before, missives)
    ensures AllItemsOk(stream, after, missives')
  {
    forall i | 0 <= i < |stream|
      ensures ItemOk(stream[i], after, missives')
    {
      assert ItemOk(stream[i], before, missives);
      WordsStay(before, after, max, missives, missives', stream[i].line);
    }
  }

  /** No new answer, no new row: the stream stays right as it is. */
  ghost predicate NothingToMirror(before: Intake, after: Intake) {
    forall m :: m in after && after[m].symbiot.Some? ==>
      m in before && (after[m].answer.Some? ==> before[m].answer.Some?)
  }

  lemma StreamStays(stream: seq<Item>, before: Intake, after: Intake, max: int, missives: Missives)
    requires RowsOk(before, max) && Walks(before, after, max) && NothingToMirror(before, after)
    requires StreamOk(stream, before, missives)
    ensures StreamOk(stream, after, missives)
  {
    ItemsStayOk(stream, before, after, max, missives, missives);
    forall m | m in after
      ensures Mirrored(stream, after, m)
    {
      if after[m].symbiot.Some? {
        assert Mirrored(stream, before, m);
        assert RowOkAt(before, max, m) && Walked(before, after, max, m);
        MoveKeepsWords(before[m], after[m], max);
      }
    }
  }

  lemma HasLineGrows(stream: seq<Item>, item: Item, line: Line)
    ensures HasLine(stream + [item], line) <==> HasLine(stream, line) || item.line == line
  {
    var longer := stream + [item];
    if HasLine(stream, line) {
      var i :| 0 <= i < |stream| && stream[i].line == line;
      assert longer[i].line == line;
    }
    if item.line == line {
      assert longer[|stream|].line == line;
    }
  }

  lemma AppendInOrder(stream: seq<Item>, item: Item)
    requires InOrder(stream) && CanAppend(stream, item.id, item.symbiot)
    ensures InOrder(stream + [item])
  {
  }

  lemma AppendDistinct(stream: seq<Item>, item: Item)
    requires LinesDistinct(stream) && !HasLine(stream, item.line)
    ensures LinesDistinct(stream + [item])
  {
  }

  lemma AppendAskedFirst(stream: seq<Item>, item: Item)
    requires AllAskedFirst(stream)
    requires item.line.Replied? ==> HasLine(stream, Said(item.line.message))
    ensures AllAskedFirst(stream + [item])
  {
    var longer := stream + [item];
    forall j | 0 <= j < |longer|
      ensures AskedFirst(longer, j)
    {
      if j < |stream| {
        assert AskedFirst(stream, j);
        if stream[j].line.Replied? {
          var i :| 0 <= i < j && stream[i].line == Said(stream[j].line.message);
          assert longer[i].line == Said(longer[j].line.message);
        }
      } else if item.line.Replied? {
        var i :| 0 <= i < |stream| && stream[i].line == Said(item.line.message);
        assert longer[i].line == Said(longer[j].line.message);
      }
    }
  }

  /** A line joins the stream in the transaction that wrote its words. */
  lemma StreamAppends(
    stream: seq<Item>, before: Intake, after: Intake, max: int, missives: Missives, missives': Missives, item: Item)
    requires RowsOk(before, max) && Walks(before, after, max) && MissivesGrow(missives, missives')
    requires StreamOk(stream, before, missives)
    requires CanAppend(stream, item.id, item.symbiot) && !HasLine(stream, item.line)
    requires ItemOk(item, after, missives')
    requires item.line.Replied? ==> HasLine(stream, Said(item.line.message))
    requires AllMirrored(stream + [item], after, missives')
    ensures StreamOk(stream + [item], after, missives')
  {
    AppendInOrder(stream, item);
    AppendDistinct(stream, item);
    AppendAskedFirst(stream, item);
    ItemsStayOk(stream, before, after, max, missives, missives');
  }

  /** An existing line's words exist already, so words just written are on no line yet. */
  lemma NotOnStreamYet(stream: seq<Item>, intake: Intake, missives: Missives, line: Line)
    requires AllItemsOk(stream, intake, missives) && Words(line, intake, missives).None?
    ensures !HasLine(stream, line)
  {
  }

  // ----- the three kinds of line

  function SaidItem(id: int, symbiot: int, m: int, text: string, now: real): Item {
    Item(id, symbiot, Said(m), PromptBudget.CountTokens(text), now)
  }

  function RepliedItem(id: int, symbiot: int, m: int, answer: string, now: real): Item {
    Item(id, symbiot, Replied(m), PromptBudget.CountTokens(answer), now)
  }

  function RaisedItem(id: int, symbiot: int, x: int, body: string, now: real): Item {
    Item(id, symbiot, Raised(x), PromptBudget.CountTokens(body), now)
  }

  lemma ReceivedOnStream(
    stream: seq<Item>, intake: Intake, max: int, missives: Missives, m: int, text: string, symbiot: int, id: int,
    now: real)
    requires RowsOk(intake, max) && StreamOk(stream, intake, missives)
    requires m !in intake && CanAppend(stream, id, symbiot) && text != ""
    ensures StreamOk(stream + [SaidItem(id, symbiot, m, text, now)], intake[m := Fresh(text, Some(symbiot), now)],
                     missives)
  {
    var item, after := SaidItem(id, symbiot, m, text, now), intake[m := Fresh(text, Some(symbiot), now)];
    var longer := stream + [item];
    WalkRecord(intake, max, m, text, Some(symbiot), now);
    NotOnStreamYet(stream, intake, missives, Said(m));
    forall k | k in after
      ensures Mirrored(longer, after, k)
    {
      HasLineGrows(stream, item, Said(k));
      HasLineGrows(stream, item, Replied(k));
      assert k in intake ==> Mirrored(stream, intake, k);
    }
    forall x | x in missives
      ensures HasLine(longer, Raised(x))
    {
      HasLineGrows(stream, item, Raised(x));
    }
    StreamAppends(stream, intake, after, max, missives, missives, item);
  }

  lemma AnsweredOnStream(
    stream: seq<Item>, intake: Intake, max: int, missives: Missives, m: int, answer: string, symbiot: int, id: int,
    now: real)
    requires RowsOk(intake, max) && StreamOk(stream, intake, missives)
    requires m in intake && intake[m].status == Working && intake[m].symbiot == Some(symbiot)
    requires CanAppend(stream, id, symbiot) && answer != ""
    ensures StreamOk(stream + [RepliedItem(id, symbiot, m, answer, now)],
                     intake[m := AnsweredWith(intake[m], answer, now)], missives)
  {
    var item, after := RepliedItem(id, symbiot, m, answer, now), intake[m := AnsweredWith(intake[m], answer, now)];
    var longer := stream + [item];
    WalkOne(intake, max, m, AnsweredWith(intake[m], answer, now));
    assert RowOkAt(intake, max, m);
    NotOnStreamYet(stream, intake, missives, Replied(m));
    assert Mirrored(stream, intake, m);
    forall k | k in after
      ensures Mirrored(longer, after, k)
    {
      HasLineGrows(stream, item, Said(k));
      HasLineGrows(stream, item, Replied(k));
      assert Mirrored(stream, intake, k);
    }
    forall x | x in missives
      ensures HasLine(longer, Raised(x))
    {
      HasLineGrows(stream, item, Raised(x));
    }
    StreamAppends(stream, intake, after, max, missives, missives, item);
  }

  lemma RaisedOnStream(
    stream: seq<Item>, intake: Intake, max: int, missives: Missives, x: int, missive: Missive, id: int, now: real)
    requires RowsOk(intake, max) && StreamOk(stream, intake, missives)
    requires x !in missives && CanAppend(stream, id, missive.symbiot) && missive.body != ""
    ensures StreamOk(stream + [RaisedItem(id, missive.symbiot, x, missive.body, now)], intake, missives[x := missive])
  {
    var item, missives' := RaisedItem(id, missive.symbiot, x, missive.body, now), missives[x := missive];
    var longer := stream + [item];
    WalkStays(intake, max);
    NotOnStreamYet(stream, intake, missives, Raised(x));
    forall k | k in intake
      ensures Mirrored(longer, intake, k)
    {
      HasLineGrows(stream, item, Said(k));
      HasLineGrows(stream, item, Replied(k));
      assert Mirrored(stream, intake, k);
    }
    forall y | y in missives'
      ensures HasLine(longer, Raised(y))
    {
      HasLineGrows(stream, item, Raised(y));
    }
    StreamAppends(stream, intake, intake, max, missives, missives', item);
  }
}
