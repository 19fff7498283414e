/** The in-memory idea/interest store: ideas with sequential ids, each owning
    its generated screening questions and an append-only list of interests
    with ids sequential within that idea. */
module Store {
  import opened TechStack
  import opened Evaluation

  datatype Option<T> = None | Some(value: T)

  /** Why the store refused a request. */
  datatype StoreError = IdeaNotFound | TeamSizeMismatch | AnswerCountMismatch

  datatype Result<T> = Ok(value: T) | Err(error: StoreError)

  /** One role of a team requirement; a missing count counts as 0. */
  datatype TeamRequirement = TeamRequirement(role: string, count: Option<int>)

  /** The fields of an idea submission. */
  datatype IdeaSubmission = IdeaSubmission(
    title: string,
    problemStatement: string,
    solutionSummary: string,
    techStack: StackInput,
    teamRequirements: seq<TeamRequirement>,
    engagementType: string,
    requiredTeamSize: int,
    notes: Option<string>)

  /** The fields of an interest submission. */
  datatype InterestSubmission = InterestSubmission(
    name: string,
    contact: string,
    email: string,
    techStack: StackInput,
    yearsOfExperience: int,
    answers: seq<string>,
    comments: Option<string>)

  datatype Interest = Interest(
    interestId: nat,
    name: string,
    contact: string,
    email: string,
    techStack: seq<string>,
    yearsOfExperience: int,
    comments: string,
    answers: seq<string>,
    evaluation: Evaluation)

  datatype Idea = Idea(
    id: nat,
    title: string,
    problemStatement: string,
    solutionSummary: string,
    techStack: seq<string>,
    teamRequirements: seq<TeamRequirement>,
    requiredTeamSize: int,
    engagementType: string,
    notes: string,
    generatedQuestions: seq<string>,
    interests: seq<Interest>)

  function OrElse<T>(o: Option<T>, default: T): T {
    match o
    case Some(v) => v
    case None => default
  }

  /** `sum(int(i.get("count", 0)) for i in team_requirements)`: the sum of the
      requirement counts, a missing count counting 0. */
  function TeamTotal(reqs: seq<TeamRequirement>): (r: int)
    ensures (forall k :: 0 <= k < |reqs| ==> reqs[k].count.None?) ==> r == 0
  {
    if reqs == [] then 0
    else
      assert forall k :: 1 <= k < |reqs| ==> reqs[k] == reqs[1..][k - 1];
      OrElse(reqs[0].count, 0) + TeamTotal(reqs[1..])
  }

  /** Team totals add up over concatenated requirement lists. */
  lemma {:induction false} TeamTotalAppend(a: seq<TeamRequirement>, b: seq<TeamRequirement>)
    ensures TeamTotal(a + b) == TeamTotal(a) + TeamTotal(b)
  {
    if a == [] {
      assert a + b == b;
    } else {
      assert (a + b)[1..] == a[1..] + b;
      TeamTotalAppend(a[1..], b);
    }
  }

  /** One requirement contributes its count, or 0 when it has none; with
      `TeamTotalAppend` this fixes the total of every list. */
  lemma TeamTotalSingle(q: TeamRequirement)
    ensures TeamTotal([q]) == OrElse(q.count, 0)
  {
    assert [q][1..] == [];
  }

  /** Every token of a stored stack is normalized. */
  predicate Normalized(stack: seq<string>) {
    forall k :: 0 <= k < |stack| ==> IsToken(stack[k])
  }

  /** The stored interest with id `id` on an idea whose stack is `ideaStack`:
      its stack is normalized and its evaluation is the one computed from
      the two stacks and its answers. */
  ghost predicate InterestValid(it: Interest, id: nat, ideaStack: seq<string>) {
    && it.interestId == id
    && Normalized(it.techStack)
    && exists p: Personality :: it.evaluation == EvaluationOf(ideaStack, it.techStack, it.answers, p)
  }

  /** The stored idea with id `id`: team counts add up to the team size, the
      stack is normalized and interest ids run 1, 2, ... */
  ghost predicate IdeaValid(idea: Idea, id: nat) {
    && idea.id == id
    && TeamTotal(idea.teamRequirements) == idea.requiredTeamSize
    && Normalized(idea.techStack)
    && forall j :: 0 <= j < |idea.interests| ==> InterestValid(idea.interests[j], j + 1, idea.techStack)
  }

  /** The idea `post_idea` creates from a valid submission. */
  function NewIdea(sub: IdeaSubmission, id: nat): (idea: Idea)
    requires TeamTotal(sub.teamRequirements) == sub.requiredTeamSize
    ensures IdeaValid(idea, id)
    ensures idea.generatedQuestions == [] && idea.interests == []
  {
    Idea(id, sub.title, sub.problemStatement, sub.solutionSummary,
         Normalize(sub.techStack), sub.teamRequirements, sub.requiredTeamSize,
         sub.engagementType, OrElse(sub.notes, ""), [], [])
  }

  /** The interest `submit_interest` records: the builder's fields with a
      normalized stack, the answers as given, a missing comment as "", and
      the evaluation. */
  function NewInterest(sub: InterestSubmission, id: nat, ideaStack: seq<string>,
                       personality: Personality): (it: Interest)
    ensures it.interestId == id && it.answers == sub.answers
    ensures Normalized(it.techStack)
    ensures sub.comments.None? ==> it.comments == ""
  {
    var stack := Normalize(sub.techStack);
    Interest(id, sub.name, sub.contact, sub.email, stack, sub.yearsOfExperience,
             OrElse(sub.comments, ""), sub.answers,
             EvaluationOf(ideaStack, stack, sub.answers, personality))
  }

  /** A recorded interest is valid under the id it was given. */
  lemma NewInterestValid(sub: InterestSubmission, id: nat, ideaStack: seq<string>,
                         personality: Personality)
    ensures InterestValid(NewInterest(sub, id, ideaStack, personality), id, ideaStack)
  {
    var it := NewInterest(sub, id, ideaStack, personality);
    assert it.evaluation == EvaluationOf(ideaStack, it.techStack, it.answers, personality);
  }

  /** Idea ids are exactly 1 .. |ideas|, in order, and each idea is valid. */
  ghost predicate ValidIdeas(ideas: seq<Idea>) {
    forall i :: 0 <= i < |ideas| ==> IdeaValid(ideas[i], i + 1)
  }

  lemma ReplaceIdea(ideas: seq<Idea>, i: nat, idea: Idea)
    requires ValidIdeas(ideas) && i < |ideas| && IdeaValid(idea, i + 1)
    ensures ValidIdeas(ideas[i := idea])
  {
    var ideas' := ideas[i := idea];
    forall j | 0 <= j < |ideas'| ensures IdeaValid(ideas'[j], j + 1) {
      if j != i {
        assert ideas'[j] == ideas[j];
      }
    }
  }

  lemma AppendInterest(idea: Idea, id: nat, it: Interest)
    requires IdeaValid(idea, id)
    requires InterestValid(it, |idea.interests| + 1, idea.techStack)
    ensures IdeaValid(idea.(interests := idea.interests + [it]), id)
  {
    var idea' := idea.(interests := idea.interests + [it]);
    forall j | 0 <= j < |idea'.interests|
      ensures InterestValid(idea'.interests[j], j + 1, idea'.techStack)
    {
      if j < |idea.interests| {
        assert idea'.interests[j] == idea.interests[j];
      }
    }
  }

  class IdeaStore {
    var ideas: seq<Idea>

    ghost predicate Valid()
      reads this
    {
      ValidIdeas(ideas)
    }

    /** What the store invariant guarantees: idea ids run 1 .. |ideas|, each
        idea's interest ids run 1 .. |interests|, team counts add up and
        every stored stack is normalized. */
    lemma ValidIds()
      requires Valid()
      ensures forall i :: 0 <= i < |ideas| ==> ideas[i].id == i + 1
      ensures forall i :: 0 <= i < |ideas| ==>
                TeamTotal(ideas[i].teamRequirements) == ideas[i].requiredTeamSize
      ensures forall i, j :: 0 <= i < |ideas| && 0 <= j < |ideas[i].interests| ==>
                ideas[i].interests[j].interestId == j + 1
      ensures forall i :: 0 <= i < |ideas| ==> Normalized(ideas[i].techStack)
    {
      forall i, j | 0 <= i < |ideas| && 0 <= j < |ideas[i].interests|
        ensures ideas[i].interests[j].interestId == j + 1
      {
        assert IdeaValid(ideas[i], i + 1);
        assert InterestValid(ideas[i].interests[j], j + 1, ideas[i].techStack);
      }
    }

    constructor ()
      ensures Valid() && ideas == []
    {
      ideas := [];
    }

    /** `find_idea_index`: the index of the first idea with this id. In a
        valid store that is `id - 1` for ids 1 .. |ideas| and none otherwise. */
    method FindIdeaIndex(id: int) returns (r: Option<nat>)
      ensures r.Some? ==> r.value < |ideas| && ideas[r.value].id == id
      ensures r.Some? ==> forall j :: 0 <= j < r.value ==> ideas[j].id != id
      ensures r.None? ==> forall j :: 0 <= j < |ideas| ==> ideas[j].id != id
      ensures Valid() ==> r == if 1 <= id <= |ideas| then Some(id - 1) else None
    {
      if Valid() && 1 <= id <= |ideas| {
        assert ideas[id - 1].id == id;
      }
      var idx := 0;
      while idx < |ideas|
        invariant 0 <= idx <= |ideas|
        invariant forall j :: 0 <= j < idx ==> ideas[j].id != id
      {
        if ideas[idx].id == id {
          return Some(idx);
        }
        idx := idx + 1;
      }
      return None;
    }

    /** `post_idea`: refuse a submission whose team counts do not add up to
        the team size; otherwise append the new idea with the next id. */
    method PostIdea(sub: IdeaSubmission) returns (r: Result<Idea>)
      requires Valid()
      modifies this
      ensures Valid()
      ensures TeamTotal(sub.teamRequirements) != sub.requiredTeamSize ==>
                r == Err(TeamSizeMismatch) && ideas == old(ideas)
      ensures TeamTotal(sub.teamRequirements) == sub.requiredTeamSize ==>
                && r == Ok(NewIdea(sub, |old(ideas)| + 1))
                && ideas == old(ideas) + [r.value]
    {
      var total := TeamTotal(sub.teamRequirements);
      if total != sub.requiredTeamSize {
        return Err(TeamSizeMismatch);
      }
      var idea := NewIdea(sub, |ideas| + 1);
      ideas := ideas + [idea];
      return Ok(idea);
    }

    /** `gen_q`: overwrite the idea's screening questions with the list the
        question generator returned. */
    method GenerateQuestions(id: int, questions: seq<string>) returns (r: Result<seq<string>>)
      requires Valid()
      modifies this
      ensures Valid()
      ensures !(1 <= id <= |old(ideas)|) ==> r == Err(IdeaNotFound) && ideas == old(ideas)
      ensures 1 <= id <= |old(ideas)| ==>
                && r == Ok(questions)
                && ideas == old(ideas)[id - 1 := old(ideas)[id - 1].(generatedQuestions := questions)]
    {
      var idx := FindIdeaIndex(id);
      if idx.None? {
        return Err(IdeaNotFound);
      }
      var i := idx.value;
      ideas := ideas[i := ideas[i].(generatedQuestions := questions)];
      return Ok(questions);
    }

    /** `submit_interest`: refuse an unknown idea, then a submission with a
        different number of answers than the idea has questions; otherwise
        evaluate the builder and append the interest, with the next interest
        id of that idea, to that idea alone. */
    method SubmitInterest(id: int, sub: InterestSubmission, personality: Personality)
      returns (r: Result<Interest>)
      requires Valid()
      modifies this
      ensures Valid()
      ensures !(1 <= id <= |old(ideas)|) ==> r == Err(IdeaNotFound) && ideas == old(ideas)
      ensures 1 <= id <= |old(ideas)| && |sub.answers| != |old(ideas)[id - 1].generatedQuestions| ==>
                r == Err(AnswerCountMismatch) && ideas == old(ideas)
      ensures r.Ok? <==> 1 <= id <= |old(ideas)| && |sub.answers| == |old(ideas)[id - 1].generatedQuestions|
      ensures r.Ok? ==>
                var idea := old(ideas)[id - 1];
                && r.value == NewInterest(sub, |idea.interests| + 1, idea.techStack, personality)
                && ideas == old(ideas)[id - 1 := idea.(interests := idea.interests + [r.value])]
    {
      var idx := FindIdeaIndex(id);
      if idx.None? {
        return Err(IdeaNotFound);
      }
      var i := idx.value;
      assert i == id - 1;
      var idea := ideas[i];
      if |idea.generatedQuestions| != |sub.answers| {
        return Err(AnswerCountMismatch);
      }
      var stack := Normalize(sub.techStack);
      var evaluation := EvaluateBuilder(idea.techStack, stack, sub.answers, personality);
      var interest := Interest(|idea.interests| + 1, sub.name, sub.contact, sub.email, stack,
                               sub.yearsOfExperience, OrElse(sub.comments, ""), sub.answers,
                               evaluation);
      assert interest == NewInterest(sub, |idea.interests| + 1, idea.techStack, personality);
      NewInterestValid(sub, |idea.interests| + 1, idea.techStack, personality);
      assert IdeaValid(idea, i + 1);
      AppendInterest(idea, i + 1, interest);
      var updated := idea.(interests := idea.interests + [interest]);
      ReplaceIdea(ideas, i, updated);
      ideas := ideas[i := updated];
      return Ok(interest);
    }
  }
}
