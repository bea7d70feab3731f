/** Filing a message into the diary: the fact, its one embedding, and one link per concept
    (services/memory/ontology.py:231-242, services/memory/ontology.py:300-430). */
module Filing {
  import opened Prelude
  import opened Ontology
  import Sorting

  datatype Fact = Fact(text: string, happenedAt: Option<real>, intake: Option<int>)

  /** The three tables a filing writes.  `filed` is the UNIQUE index over intake_id: nulls are not in it. */
  datatype Diary = Diary(facts: map<int, Fact>, filed: map<int, int>, embeddings: seq<int>, links: seq<(int, int)>)

  /** The index knows exactly the facts that were distilled from a message. */
  ghost predicate Indexed(facts: map<int, Fact>, filed: map<int, int>) {
    && (forall m {:trigger m in filed} :: m in filed ==> filed[m] in facts && facts[filed[m]].intake == Some(m))
    && (forall f :: f in facts && facts[f].intake.Some? ==>
          facts[f].intake.value in filed && filed[facts[f].intake.value] == f)
  }

  ghost predicate Embedded(facts: map<int, Fact>, embeddings: seq<int>) {
    forall f :: multiset(embeddings)[f] == if f in facts then 1 else 0
  }

  /** The join table's composite key: no link twice, and none to a fact that is not there. */
  ghost predicate LinkOk(facts: map<int, Fact>, links: seq<(int, int)>, p: (int, int)) {
    multiset(links)[p] <= 1 && (p in links ==> p.0 in facts)
  }

  ghost predicate LinkedOnce(facts: map<int, Fact>, links: seq<(int, int)>) {
    forall p: (int, int) {:trigger LinkOk(facts, links, p)} :: LinkOk(facts, links, p)
  }

  /** Every fact has one embedding row and no link twice, and a message has at most one fact. */
  ghost predicate DiaryOk(d: Diary) {
    Indexed(d.facts, d.filed) && Embedded(d.facts, d.embeddings) && LinkedOnce(d.facts, d.links)
  }

  function LinksOf(fact: int, types: seq<int>): seq<(int, int)> {
    if types == [] then [] else LinksOf(fact, types[..|types| - 1]) + [(fact, types[|types| - 1])]
  }

  ghost predicate EachOnce(s: seq<int>) {
    forall x :: multiset(s)[x] <= 1
  }

  lemma {:induction false} LinksOfOnce(fact: int, types: seq<int>, p: (int, int))
    ensures multiset(LinksOf(fact, types))[p] == if p.0 == fact then multiset(types)[p.1] else 0
  {
    if types != [] {
      LinksOfOnce(fact, types[..|types| - 1], p);
      assert types == types[..|types| - 1] + [types[|types| - 1]];
    }
  }

  /** File a fact under the id it would get, or find it already filed for its message. */
  function Persisted(
    d: Diary, id: int, text: string, types: seq<int>, happenedAt: Option<real>, intake: Option<int>): (Diary, int)
  {
    if intake.Some? && intake.value in d.filed then (d, d.filed[intake.value])
    else
      (Diary(d.facts[id := Fact(text, happenedAt, intake)],
             if intake.Some? then d.filed[intake.value := id] else d.filed,
             d.embeddings + [id],
             d.links + LinksOf(id, types)),
       id)
  }

  lemma NewLinks(facts: map<int, Fact>, links: seq<(int, int)>, id: int, fact: Fact, types: seq<int>)
    requires LinkedOnce(facts, links) && id !in facts && EachOnce(types)
    ensures LinkedOnce(facts[id := fact], links + LinksOf(id, types))
    ensures forall t :: (id, t) in links + LinksOf(id, types) <==> t in types
  {
    var facts', after := facts[id := fact], links + LinksOf(id, types);
    forall p: (int, int)
      ensures LinkOk(facts', after, p)
    {
      NewLink(facts, links, id, fact, types, p);
    }
    forall t
      ensures (id, t) in after <==> t in types
    {
      NewLink(facts, links, id, fact, types, (id, t));
    }
  }

  lemma NewLink(facts: map<int, Fact>, links: seq<(int, int)>, id: int, fact: Fact, types: seq<int>, p: (int, int))
    requires LinkedOnce(facts, links) && id !in facts && EachOnce(types)
    ensures LinkOk(facts[id := fact], links + LinksOf(id, types), p)
    ensures p in links + LinksOf(id, types) <==> if p.0 == id then p.1 in types else p in links
  {
    var added := LinksOf(id, types);
    var t: int := p.1;
    LinksOfOnce(id, types, p);
    assert LinkOk(facts, links, p);
    assert multiset(types)[t] <= 1;
    assert multiset(links + added)[p] == multiset(links)[p] + multiset(added)[p];
    assert p in links <==> multiset(links)[p] > 0;
    assert p in added <==> multiset(added)[p] > 0;
    assert t in types <==> multiset(types)[t] > 0;
  }

  lemma NewEmbedding(facts: map<int, Fact>, embeddings: seq<int>, id: int, fact: Fact)
    requires Embedded(facts, embeddings) && id !in facts
    ensures Embedded(facts[id := fact], embeddings + [id])
  {
  }

  /** A fact is filed once, with one embedding and one link per concept; a re-file returns the same fact and
      changes nothing. */
  lemma FiledOnce(
    d: Diary, id: int, text: string, types: seq<int>, happenedAt: Option<real>, intake: Option<int>)
    requires DiaryOk(d) && id !in d.facts && EachOnce(types)
    ensures var (after, fact) := Persisted(d, id, text, types, happenedAt, intake);
            && DiaryOk(after)
            && (intake.Some? && intake.value in d.filed ==> after == d && fact == d.filed[intake.value])
            && (intake.Some? ==> intake.value in after.filed && after.filed[intake.value] == fact)
            && (!(intake.Some? && intake.value in d.filed) ==>
                  forall t :: (fact, t) in after.links <==> t in types)
  {
    NewLinks(d.facts, d.links, id, Fact(text, happenedAt, intake), types);
    NewEmbedding(d.facts, d.embeddings, id, Fact(text, happenedAt, intake));
  }

  // ----- the concepts a message routes to

  /** `list(dict.fromkeys(routed))`: each type once, where it was first seen. */
  function FirstSeen(routed: seq<int>): seq<int> {
    if routed == [] then []
    else
      var rest, last := FirstSeen(routed[..|routed| - 1]), routed[|routed| - 1];
      if last in routed[..|routed| - 1] then rest else rest + [last]
  }

  lemma {:induction false} FirstSeenOnce(routed: seq<int>, x: int)
    ensures multiset(FirstSeen(routed))[x] == if x in routed then 1 else 0
  {
    if routed != [] {
      var front, last := routed[..|routed| - 1], routed[|routed| - 1];
      FirstSeenOnce(front, x);
      assert routed == front + [last];
    }
  }

  /** The types a fact is filed under: each routed type once, in the order of their names.
      `rank` stands for the names' order, highest first. */
  function Concepts(routed: seq<int>, rank: int -> real): seq<int> {
    Sorting.Sort(rank, FirstSeen(routed))
  }

  lemma ConceptsOnce(routed: seq<int>, rank: int -> real)
    ensures EachOnce(Concepts(routed, rank))
    ensures forall x :: x in Concepts(routed, rank) <==> x in routed
    ensures Sorting.Descending(rank, Concepts(routed, rank))
  {
    Sorting.SortSame(rank, FirstSeen(routed));
    Sorting.SortOrders(rank, FirstSeen(routed));
    forall x
      ensures multiset(Concepts(routed, rank))[x] == if x in routed then 1 else 0
    {
      FirstSeenOnce(routed, x);
    }
    forall x
      ensures x in Concepts(routed, rank) <==> x in routed
    {
      assert x in Concepts(routed, rank) <==> x in multiset(Concepts(routed, rank));
    }
  }

  // ----- the vocabulary of types

  /** The type rows: their names, the parent and redirect each carries, and the UNIQUE index over type_name. */
  datatype Vocabulary = Vocabulary(names: map<int, string>, rows: Types, index: map<string, int>)

  /** The index knows every row by its name, and no other name. */
  ghost predicate VocabularyOk(v: Vocabulary) {
    && v.names.Keys == v.rows.Keys
    && (forall name :: name in v.index ==> v.index[name] in v.names && v.names[v.index[name]] == name)
    && (forall id :: id in v.names ==> v.names[id] in v.index && v.index[v.names[id]] == id)
  }

  /** So no two types bear one name. */
  lemma OneOfAName(v: Vocabulary, a: int, b: int)
    requires VocabularyOk(v) && a in v.names && b in v.names
    ensures v.names[a] == v.names[b] <==> a == b
  {
    assert v.index[v.names[a]] == a && v.index[v.names[b]] == b;
  }

  /** `INSERT … ON CONFLICT (type_name) DO NOTHING`, and the read of the name where it did nothing. */
  function Inserted(v: Vocabulary, name: string, parent: Option<int>, id: int): (Vocabulary, int) {
    if name in v.index then (v, v.index[name])
    else (Vocabulary(v.names[id := name], v.rows[id := TypeRow(parent, None)], v.index[name := id]), id)
  }

  lemma InsertedOk(v: Vocabulary, name: string, parent: Option<int>, id: int)
    requires VocabularyOk(v) && id !in v.rows
    ensures var (after, type_) := Inserted(v, name, parent, id);
            VocabularyOk(after) && type_ in after.names && after.names[type_] == name
  {
    var after := Inserted(v, name, parent, id).0;
    forall k | k in after.names
      ensures after.names[k] in after.index && after.index[after.names[k]] == k
    {
      assert k in v.names ==> v.names[k] in v.index && v.index[v.names[k]] == k;
    }
  }

  /** Two mints that both found a name unknown race to coin it: whichever comes first, both are handed the winner's
      row, and the loser writes nothing. */
  lemma RaceHasOneWinner(v: Vocabulary, name: string, p: Option<int>, first: int, q: Option<int>, second: int)
    requires VocabularyOk(v) && name !in v.index && first !in v.rows && second !in v.rows && first != second
    ensures var (won, a) := Inserted(v, name, p, first);
            var (lost, b) := Inserted(won, name, q, second);
            && a == b == first && lost == won && VocabularyOk(lost)
            && (forall id :: id in lost.names && lost.names[id] == name <==> id == first)
            && Live(lost.rows, first) && lost.rows[first].parent == p
  {
    InsertedOk(v, name, p, first);
    var won := Inserted(v, name, p, first).0;
    forall id
      ensures id in won.names && won.names[id] == name <==> id == first
    {
      if id in won.names { OneOfAName(won, id, first); }
    }
  }

  // ----- the store itself

  class FactStore {
    var facts: map<int, Fact>
    var filed: map<int, int>
    var embeddings: seq<int>
    var links: seq<(int, int)>
    var vocabulary: Vocabulary

    function Now(): Diary
      reads this
    {
      Diary(facts, filed, embeddings, links)
    }

    constructor ()
      ensures DiaryOk(Now()) && VocabularyOk(vocabulary)
      ensures Now() == Diary(map[], map[], [], []) && vocabulary == Vocabulary(map[], map[], map[])
    {
      facts, filed, embeddings, links, vocabulary := map[], map[], [], [], Vocabulary(map[], map[], map[]);
      new;
      forall p: (int, int)
        ensures LinkOk(facts, links, p)
      {
      }
    }

    /** The write, all of it or none: a conflict on the message's id reuses the fact it found. */
    method Persist(id: int, text: string, concepts: seq<int>, happenedAt: Option<real>, intake: Option<int>)
        returns (fact: int)
      requires id !in facts
      modifies this`facts, this`filed, this`embeddings, this`links
      ensures (Now(), fact) == Persisted(old(Now()), id, text, concepts, happenedAt, intake)
    {
      if intake.Some? && intake.value in filed {
        return filed[intake.value];
      }
      facts := facts[id := Fact(text, happenedAt, intake)];
      if intake.Some? {
        filed := filed[intake.value := id];
      }
      embeddings := embeddings + [id];
      for k := 0 to |concepts|
        invariant links == old(links) + LinksOf(id, concepts[..k])
        invariant facts == old(facts)[id := Fact(text, happenedAt, intake)]
        invariant filed == if intake.Some? then old(filed)[intake.value := id] else old(filed)
        invariant embeddings == old(embeddings) + [id]
      {
        assert concepts[..k + 1][..k] == concepts[..k];
        links := links + [(id, concepts[k])];
      }
      assert concepts[..|concepts|] == concepts;
      fact := id;
    }

    /** Distil one message into the diary, from the types its concepts were routed to. */
    method Ingest(id: int, text: string, routed: seq<int>, rank: int -> real, happenedAt: Option<real>,
        intake: Option<int>)
        returns (fact: int)
      requires id !in facts && DiaryOk(Now())
      modifies this`facts, this`filed, this`embeddings, this`links
      ensures DiaryOk(Now())
      ensures intake.Some? ==> intake.value in filed && filed[intake.value] == fact
      ensures intake.Some? && intake.value in old(filed) ==> Now() == old(Now()) && fact == old(filed)[intake.value]
      ensures !(intake.Some? && intake.value in old(filed)) ==>
                && fact == id && fact in facts && facts[fact] == Fact(text, happenedAt, intake)
                && (forall t :: (fact, t) in links <==> t in routed)
      ensures !(intake.Some? && intake.value in old(filed)) ==>
                ((forall t :: (fact, t) in links ==> Live(vocabulary.rows, t))
                 <==> (forall t :: t in routed ==> Live(vocabulary.rows, t)))
    {
      var concepts := Concepts(routed, rank);
      ConceptsOnce(routed, rank);
      FiledOnce(Now(), id, text, concepts, happenedAt, intake);
      fact := Persist(id, text, concepts, happenedAt, intake);
    }

    /** The insert of a new type, which a mint that lost the race finds already made. */
    method InsertType(name: string, parent: Option<int>, id: int) returns (type_: int)
      requires VocabularyOk(vocabulary) && id !in vocabulary.rows
      modifies this`vocabulary
      ensures VocabularyOk(vocabulary) && (vocabulary, type_) == Inserted(old(vocabulary), name, parent, id)
    {
      InsertedOk(vocabulary, name, parent, id);
      if name in vocabulary.index {
        return vocabulary.index[name];
      }
      vocabulary := Vocabulary(vocabulary.names[id := name], vocabulary.rows[id := TypeRow(parent, None)],
                               vocabulary.index[name := id]);
      type_ := id;
    }

    /** Coin a type, or reuse the one that bears the name, whatever has become of it since: what comes back is live if
        and only if the name was new or its type was live. */
    method Mint(name: string, parent: Option<int>, id: int) returns (type_: int)
      requires VocabularyOk(vocabulary) && id !in vocabulary.rows
      modifies this`vocabulary
      ensures VocabularyOk(vocabulary) && type_ in vocabulary.names && vocabulary.names[type_] == name
      ensures forall k :: k in vocabulary.names && vocabulary.names[k] == name <==> k == type_
      ensures forall k :: k in old(vocabulary).rows ==>
                k in vocabulary.rows && vocabulary.rows[k] == old(vocabulary).rows[k]
      ensures name in old(vocabulary).index ==> type_ == old(vocabulary).index[name] && vocabulary == old(vocabulary)
      ensures (vocabulary, type_) == Inserted(old(vocabulary), name, parent, id)
      ensures Live(vocabulary.rows, type_)
         <==> (name in old(vocabulary).index ==> Live(old(vocabulary).rows, old(vocabulary).index[name]))
    {
      if name in vocabulary.index {
        type_ := vocabulary.index[name];
      } else {
        type_ := InsertType(name, parent, id);
      }
      forall k
        ensures k in vocabulary.names && vocabulary.names[k] == name <==> k == type_
      {
        if k in vocabulary.names { OneOfAName(vocabulary, k, type_); }
      }
    }

    /** The merge pass folding one live type into another, as its tables are left. */
    method Merge(survivor: int, loser: int)
      requires VocabularyOk(vocabulary) && Live(vocabulary.rows, survivor) && Live(vocabulary.rows, loser)
      requires survivor != loser
      modifies this`vocabulary
      ensures VocabularyOk(vocabulary)
      ensures vocabulary == old(vocabulary).(rows := CollapsedTypes(old(vocabulary).rows, survivor, loser))
    {
      vocabulary := vocabulary.(rows := CollapsedTypes(vocabulary.rows, survivor, loser));
    }
  }

  /** A type folded into another is a tombstone that redirects to it. */
  lemma FoldedIsTombstone(types: Types, survivor: int, loser: int)
    requires Live(types, survivor) && Live(types, loser) && survivor != loser
    ensures var after := CollapsedTypes(types, survivor, loser);
            !Live(after, loser) && Live(after, survivor) && ResolvesTo(after, loser, survivor)
  {
    var after := CollapsedTypes(types, survivor, loser);
    assert after[survivor] == CollapsedRow(types[survivor], survivor, survivor, loser);
    assert after[loser] == CollapsedRow(types[loser], loser, survivor, loser);
    assert Redirected(after, survivor, 0) == Some(survivor);
    assert Redirected(after, loser, 1) == Some(survivor);
  }

  /** Two types are minted, and the first is folded into the second. */
  method MintAndMerge(name: string, other: string) returns (store: FactStore, dead: int, survivor: int)
    requires name != other
    ensures fresh(store) && store.Now() == Diary(map[], map[], [], []) && DiaryOk(store.Now())
    ensures VocabularyOk(store.vocabulary) && store.vocabulary.rows.Keys == {1, 2}
    ensures name in store.vocabulary.index && store.vocabulary.index[name] == dead != survivor
    ensures !Live(store.vocabulary.rows, dead) && ResolvesTo(store.vocabulary.rows, dead, survivor)
  {
    store := new FactStore();
    dead := store.Mint(name, None, 1);
    survivor := store.Mint(other, None, 2);
    assert Live(store.vocabulary.rows, dead) && Live(store.vocabulary.rows, survivor);
    FoldedIsTombstone(store.vocabulary.rows, survivor, dead);
    store.Merge(survivor, dead);
  }

  /** The witness, as a run: the folded type's name is minted again and comes back as the tombstone; a fact routed there
      is linked to no live type, and only the redirect says which one is meant. */
  method FiledUnderTombstone(name: string, other: string, text: string, message: int)
      returns (store: FactStore, again: int, survivor: int, fact: int)
    requires name != other
    ensures fresh(store) && DiaryOk(store.Now()) && VocabularyOk(store.vocabulary)
    ensures !Live(store.vocabulary.rows, again) && ResolvesTo(store.vocabulary.rows, again, survivor)
    ensures again in store.vocabulary.names && store.vocabulary.names[again] == name
    ensures fact in store.facts && forall t :: (fact, t) in store.links <==> t == again
    ensures !exists t :: (fact, t) in store.links && Live(store.vocabulary.rows, t)
  {
    var dead;
    store, dead, survivor := MintAndMerge(name, other);
    again := store.Mint(name, None, 3);
    fact := store.Ingest(1, text, [again], _ => 0.0, None, Some(message));
  }

  // ----- filing, modulo the redirects

  /** Filing under a type, live or merged away, adds one link to the fact's resolved concepts and no other. */
  lemma FiledModuloRedirect(links: Links, live: map<int, int>, fact: int, t: int)
    ensures Resolved(links + {(fact, t)}, live) == Resolved(links, live) + {(fact, At(live, t))}
  {
    forall f, r
      ensures (f, r) in Resolved(links + {(fact, t)}, live) <==> (f, r) in Resolved(links, live) + {(fact, At(live, t))}
    {
      InResolved(links + {(fact, t)}, live, f, r);
      InResolved(links, live, f, r);
      if (f, r) == (fact, At(live, t)) {
        assert (f, t) in links + {(fact, t)};
      }
    }
  }

  /** A minted type is live, and no other type's resolution moves. */
  lemma MintedIsLive(types: Types, live: map<int, int>, hops: map<int, nat>, id: int, parent: Option<int>)
    requires Resolution(types, live, hops) && id !in types
    ensures Live(types[id := TypeRow(parent, None)], id)
    ensures Resolution(types[id := TypeRow(parent, None)], live[id := id], hops[id := 0])
  {
    var types', live', hops' := types[id := TypeRow(parent, None)], live[id := id], hops[id := 0];
    forall x | x in types'
      ensures Settled(types', live', hops', x)
    {
      assert x != id ==> Settled(types, live, hops, x);
    }
  }
}
