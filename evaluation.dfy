/** The evaluation orchestrator: combines skill match, answer quality and
    readiness with an externally produced personality descriptor into one
    evaluation record. */
module Evaluation {
  import opened Numeric
  import opened TechStack
  import opened Skill
  import opened Answers
  import opened Readiness

  /** The evaluation attached to an interest. Readiness is in tenths and
      answer quality in hundredths. */
  datatype Evaluation = Evaluation(
    readinessScore: nat,
    skillMatchRatio: Ratio,
    answerQuality: nat,
    personality: string,
    teamFit: string,
    summary: string)

  /** The personality classifier's reply; any of its keys may be missing. */
  type Personality = map<string, string>

  /** `d.get(key, default)`. */
  function Lookup(m: Personality, key: string, default: string): (r: string)
    ensures key in m ==> r == m[key]
    ensures key !in m ==> r == default
  {
    if key in m then m[key] else default
  }

  /** The evaluation `evaluate_builder` produces for an idea's and a builder's
      normalized stacks, the builder's answers and the personality reply. */
  function EvaluationOf(ideaStack: seq<string>, builderStack: seq<string>,
                        answers: seq<string>, personality: Personality): (e: Evaluation)
    ensures e.skillMatchRatio.num <= e.skillMatchRatio.den
    ensures e.answerQuality <= 90
    ensures e.readinessScore <= 96
    ensures e.skillMatchRatio.num == 0 ==> e.readinessScore <= SKILL_ZERO_CAP
  {
    var skill := SkillMatch(List(ideaStack), List(builderStack));
    var quality := Quality(answers);
    ReadinessCeiling(skill, quality);
    Evaluation(
      FinalReadiness(skill, quality), skill, quality,
      Lookup(personality, "personality", "unknown"),
      Lookup(personality, "team_fit", ""),
      Lookup(personality, "summary", ""))
  }

  /** The record's scores are the ones computed from the inputs, readiness
      is the combination of the two scores it carries, and the personality
      fields are copied from the reply or defaulted. */
  lemma EvaluationFields(ideaStack: seq<string>, builderStack: seq<string>,
                         answers: seq<string>, personality: Personality)
    ensures var e := EvaluationOf(ideaStack, builderStack, answers, personality);
            && e.skillMatchRatio == SkillMatch(List(ideaStack), List(builderStack))
            && e.answerQuality == Quality(answers)
            && e.readinessScore == FinalReadiness(e.skillMatchRatio, e.answerQuality)
            && ("personality" in personality ==> e.personality == personality["personality"])
            && ("personality" !in personality ==> e.personality == "unknown")
            && ("team_fit" in personality ==> e.teamFit == personality["team_fit"])
            && ("team_fit" !in personality ==> e.teamFit == "")
            && ("summary" in personality ==> e.summary == personality["summary"])
            && ("summary" !in personality ==> e.summary == "")
  {
  }

  /** `evaluate_builder`, with the answer-quality loop run as a method. */
  method EvaluateBuilder(ideaStack: seq<string>, builderStack: seq<string>,
                         answers: seq<string>, personality: Personality) returns (e: Evaluation)
    ensures e == EvaluationOf(ideaStack, builderStack, answers, personality)
  {
    var skill := SkillMatch(List(ideaStack), List(builderStack));
    var quality := AnswerQuality(answers);
    var readiness := FinalReadiness(skill, quality);
    e := Evaluation(
      readiness, skill, quality,
      Lookup(personality, "personality", "unknown"),
      Lookup(personality, "team_fit", ""),
      Lookup(personality, "summary", ""));
  }
}
