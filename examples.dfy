/** The engine's documented sample inputs and outputs, and a client of the
    store that creates ideas and interests. */
module Examples {
  import opened Text
  import opened Numeric
  import opened TechStack
  import opened Skill
  import opened Answers
  import opened Readiness
  import opened Store

  lemma SplitSample()
    ensures Split("a, b ,,c", ',') == ["a", " b ", "", "c"]
  {
    var pieces := ["a", " b ", "", "c"];
    assert pieces[1..] == [" b ", "", "c"];
    assert pieces[1..][1..] == ["", "c"];
    assert pieces[1..][1..][1..] == ["c"];
    assert Join(["c"], ',') == "c";
    assert Join(["", "c"], ',') == ",c";
    assert Join([" b ", "", "c"], ',') == " b ,,c";
    assert Join(pieces, ',') == "a, b ,,c";
    SplitJoin(pieces, ',');
  }

  lemma StripAllLast()
    ensures StripAll(["c"]) == ["c"]
  {
    StripTrimmed("c");
    assert ["c"][1..] == [];
  }

  lemma StripAllEmptyPiece()
    ensures StripAll(["", "c"]) == ["c"]
  {
    StripAllLast();
    assert ["", "c"][1..] == ["c"];
  }

  lemma StripAllPadded()
    ensures StripAll([" b ", "", "c"]) == ["b", "c"]
  {
    StripAllEmptyPiece();
    assert Strip(" b ") == "b";
    assert [" b ", "", "c"][1..] == ["", "c"];
  }

  lemma StripAllPieces()
    ensures StripAll(["a", " b ", "", "c"]) == ["a", "b", "c"]
  {
    StripAllPadded();
    StripTrimmed("a");
    assert ["a", " b ", "", "c"][1..] == [" b ", "", "c"];
  }

  lemma TextSample()
    ensures Normalize(Text("a, b ,,c")) == ["a", "b", "c"]
  {
    SplitSample();
    StripAllPieces();
  }

  lemma ListSample()
    ensures Normalize(List(["x ", " ", "y"])) == ["x", "y"]
    ensures Normalize(Other) == []
  {
    var xs := ["x ", " ", "y"];
    assert xs[1..] == [" ", "y"];
    assert xs[2..] == ["y"];
    assert Strip("x ") == "x";
    assert Strip(" ") == "";
    StripTrimmed("y");
  }

  /** The token set of a two-token list is the set of their lower-cased
      forms. */
  lemma PairTokenSet(x: string, y: string, lx: string, ly: string)
    requires Trimmed(x) && x != [] && Trimmed(y) && y != []
    requires Lower(x) == lx && Lower(y) == ly
    ensures TokenSet(List([x, y])) == {lx, ly}
  {
    StripTrimmed(x);
    StripTrimmed(y);
    assert [x, y][1..] == [y];
    assert [y][1..] == [];
    assert StripAll([x, y]) == [x, y];
  }

  /** A two-element set of which only `shared` lies in `b` meets `b` in
      that element. */
  lemma SharedOne<T>(a: set<T>, b: set<T>, shared: T, other: T)
    requires a == {shared, other} && other != shared
    requires shared in b && other !in b
    ensures a * b == {shared} && |a| == 2 && |a * b| == 1
  {
    assert a == {shared} + {other};
  }

  /** The idea's sample stack: letter case is folded. */
  lemma IdeaTokenSet()
    ensures TokenSet(List(["Go", "SQL"])) == {"go", "sql"}
  {
    assert Lower("Go") == "go" && Lower("SQL") == "sql";
    PairTokenSet("Go", "SQL", "go", "sql");
  }

  /** Matching ignores case: "Go" in the idea meets "go" in the builder. */
  lemma SkillSample()
    ensures SkillMatch(List(["Go", "SQL"]), List(["go"])) == Ratio(1, 2)
  {
    IdeaTokenSet();
    StripTrimmed("go");
    assert ["go"][1..] == [];
    assert Lower("go") == "go";
    assert TokenSet(List(["go"])) == {"go"};
    SharedOne(TokenSet(List(["Go", "SQL"])), TokenSet(List(["go"])), "go", "sql");
  }

  lemma AnswerSample(lowEffort: string, substantial: string)
    requires AnswerScore(lowEffort) == 0 && AnswerScore(substantial) == 9
    ensures Quality([lowEffort, substantial]) == 45
  {
    var scores := Scores([lowEffort, substantial]);
    assert scores[0] == 0 && scores[1] == 9;
    assert scores == [0, 9];
    assert Sum([9]) == 9 by {
      assert [9][1..] == [];
    }
    assert [0, 9][1..] == [9];
    assert Sum(scores) == 9;
    assert Mean([lowEffort, substantial]) == Ratio(90, 2);
  }

  lemma LowEffortSample()
    ensures AnswerScore("idk") == 0
  {
    assert Contains("idk", BAD_PHRASES[2]);
  }

  lemma ReadinessSamples()
    ensures FinalReadiness(Ratio(1, 2), 90) == 68
    ensures FinalReadiness(Ratio(4, 5), 10) == 30
    ensures FinalReadiness(Zero, 90) == 25
  {
  }

  /** No skill overlap and five answers of 20 to 49 characters: quality is
      exactly 0.5 and the unrounded score exactly 2.25, which rounds
      half away from zero to 2.3. */
  lemma ReadinessTie()
    ensures FinalReadiness(Zero, 50) == 23
  {
  }

  /** A mean of exactly 0.245 (20 answers whose scores sum to 4.9) rounds up
      to 0.25 here, which escapes the low-quality cap: with a full skill
      match readiness is 6.6, against 3.0 one hundredth lower. */
  lemma ThresholdTie()
    ensures Round(10 * 49, 20) == LOW_QUALITY_BELOW
    ensures FinalReadiness(Ratio(1, 1), LOW_QUALITY_BELOW) == 66
    ensures FinalReadiness(Ratio(1, 1), LOW_QUALITY_BELOW - 1) == LOW_QUALITY_CAP
  {
  }

  /** A client of the store, first half: idea ids run 1, 2, ...; a
      submission whose team counts do not add up is refused; questions go to
      the named idea only. */
  method PostSampleIdeas() returns (store: IdeaStore)
    ensures fresh(store) && store.Valid()
    ensures |store.ideas| == 2
    ensures |store.ideas[0].generatedQuestions| == 1 && store.ideas[0].interests == []
    ensures store.ideas[1].generatedQuestions == [] && store.ideas[1].interests == []
  {
    store := new IdeaStore();
    var reqs := [TeamRequirement("backend", Some(2)), TeamRequirement("design", None)];
    assert TeamTotal(reqs[1..]) == 0 by { assert reqs[1..][1..] == []; }
    var idea := IdeaSubmission("Tutor app", "", "", Other, reqs, "part-time", 2, None);
    var first := store.PostIdea(idea);
    assert first.Ok? && first.value.id == 1;
    var refused := store.PostIdea(idea.(requiredTeamSize := 3));
    assert refused == Err(TeamSizeMismatch);
    var second := store.PostIdea(idea);
    assert second.Ok? && second.value.id == 2;

    var questions := store.GenerateQuestions(1, ["Why this idea?"]);
    var missing := store.GenerateQuestions(3, ["Why?"]);
    assert missing == Err(IdeaNotFound);
  }

  /** Second half: interest ids run 1, 2, ... within one idea, an interest
      must answer every question of its idea, and an unknown idea is
      refused. */
  method StoreSession() returns (store: IdeaStore)
    ensures store.Valid()
    ensures |store.ideas| == 2
    ensures |store.ideas[0].interests| == 2 && store.ideas[1].interests == []
  {
    store := PostSampleIdeas();
    var builder := InterestSubmission("Ada", "", "", Other, 3, ["Because"], None);
    var a := store.SubmitInterest(1, builder, map[]);
    assert a.Ok? && a.value.interestId == 1;
    assert |store.ideas| == 2 && store.ideas[1].generatedQuestions == [];
    assert |store.ideas[0].generatedQuestions| == 1 && |store.ideas[0].interests| == 1;
    var b := store.SubmitInterest(1, builder, map[]);
    assert b.Ok? && b.value.interestId == 2;
    assert |store.ideas| == 2 && store.ideas[1].generatedQuestions == [];
    var unanswered := store.SubmitInterest(2, builder, map[]);
    assert unanswered == Err(AnswerCountMismatch);
    var unknown := store.SubmitInterest(7, builder, map[]);
    assert unknown == Err(IdeaNotFound);
  }
}
