// The read-only content the practice pages draw from. The question bank,
// the flashcards and the timing tables are loaded from JSON files that are
// not part of this model, so the pages take them as parameters; only the
// fields the session logic reads are kept.
module Catalog {
  import opened Seqs

  /** A practice question: its identifier, section and category tags and the
      label of the correct option ('A'..'D'). */
  datatype Question = Question(id: string, section: string, category: string, correctAnswer: string)

  /** A flashcard: identifier and tags (its two faces are presentation). */
  datatype Flashcard = Flashcard(id: string, section: string, category: string)

  /** One row of a timing table: a section and its allotted minutes. */
  datatype TimingEntry = TimingEntry(section: string, time: nat)

  datatype ExamType = Enhanced | Legacy

  /** The two timing tables, one per exam variant. */
  datatype TimingConfig = TimingConfig(enhanced: seq<TimingEntry>, legacy: seq<TimingEntry>)

  const QuestionId: Question -> string := (q: Question) => q.id

  /** Identifiers are stable and unique within the question bank. */
  predicate UniqueIds(qs: seq<Question>)
  {
    Distinct(Ids(qs, QuestionId))
  }

  /** A filtered deck keeps the question bank's unique identifiers. */
  lemma {:induction false} FilterKeepsUniqueIds(p: Question -> bool, qs: seq<Question>)
    requires UniqueIds(qs)
    ensures UniqueIds(Filter(p, qs))
  {
    if qs != [] {
      var rest := qs[1..];
      assert Ids(rest, QuestionId) == Ids(qs, QuestionId)[1..];
      FilterKeepsUniqueIds(p, rest);
      assert qs == [qs[0]] + rest;
      FilterCons(p, qs[0], rest);
      if p(qs[0]) {
        var f := Filter(p, rest);
        forall j | 0 <= j < |f| ensures f[j].id != qs[0].id {
          assert f[j] in f;
          var k :| 0 <= k < |rest| && rest[k] == f[j];
          assert Ids(qs, QuestionId)[k + 1] == f[j].id && Ids(qs, QuestionId)[0] == qs[0].id;
        }
        UniqueIdsCons(qs[0], f);
      }
    }
  }

  lemma UniqueIdsCons(x: Question, qs: seq<Question>)
    requires UniqueIds(qs)
    requires forall j :: 0 <= j < |qs| ==> qs[j].id != x.id
    ensures UniqueIds([x] + qs)
  {
    var ids := Ids([x] + qs, QuestionId);
    forall i, j | 0 <= i < j < |ids| ensures ids[i] != ids[j] {
      assert ids[j] == qs[j - 1].id;
      if i > 0 {
        assert ids[i] == qs[i - 1].id;
        assert Ids(qs, QuestionId)[i - 1] != Ids(qs, QuestionId)[j - 1];
      }
    }
  }

  /** The identifiers of a deck, as a set. */
  function DeckIds(qs: seq<Question>): set<string>
  {
    set i | 0 <= i < |qs| :: qs[i].id
  }

  lemma DeckIdsCons(qs: seq<Question>)
    requires qs != []
    ensures DeckIds(qs) == {qs[0].id} + DeckIds(qs[1..])
  {
    var rest := qs[1..];
    forall x | x in DeckIds(qs) ensures x in {qs[0].id} + DeckIds(rest) {
      var i :| 0 <= i < |qs| && qs[i].id == x;
      if i > 0 { assert rest[i - 1].id == x; }
    }
    forall x | x in DeckIds(rest) ensures x in DeckIds(qs) {
      var i :| 0 <= i < |rest| && rest[i].id == x;
      assert qs[i + 1].id == x;
    }
  }

  /** Deck identifiers are unique, so the set of them is as large as the deck. */
  lemma {:induction false} UniqueIdsCardinality(qs: seq<Question>)
    requires UniqueIds(qs)
    ensures |DeckIds(qs)| == |qs|
  {
    if qs != [] {
      var rest := qs[1..];
      assert Ids(rest, QuestionId) == Ids(qs, QuestionId)[1..];
      UniqueIdsCardinality(rest);
      DeckIdsCons(qs);
      forall i | 0 <= i < |rest| ensures rest[i].id != qs[0].id {
        assert Ids(qs, QuestionId)[0] == qs[0].id && Ids(qs, QuestionId)[i + 1] == rest[i].id;
      }
      assert qs[0].id !in DeckIds(rest);
    }
  }
}
