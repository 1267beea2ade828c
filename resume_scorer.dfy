/**
 * The score view (frontend/src/components/ResumeScorer.tsx): the colour bands of
 * a score, and the handler that requests a score for the entered résumé and job
 * description.
 *
 * The request is the parameter `post`, given the two texts; `Err` is a failed
 * request. An alert is modelled by its text, returned as `alerted`.
 */
module ResumeScorerView {

  import opened Basics
  import opened Models

  const FillBothAlert: string := "请填写简历和职位描述"
  const RetryAlert: string := "评分失败，请重试"

  datatype Band = High | Middle | Low

  /** The band of a score: 80 and up, 60 to 79, below 60. */
  function ScoreBand(score: int): (b: Band)
    ensures b == High <==> score >= 80
    ensures b == Middle <==> 60 <= score < 80
    ensures b == Low <==> score < 60
  {
    if score >= 80 then High else if score >= 60 then Middle else Low
  }

  function Hue(b: Band): string
  {
    match b
    case High => "green"
    case Middle => "yellow"
    case Low => "red"
  }

  /** `getScoreColor`. */
  function ScoreColor(score: int): (c: string)
    ensures c == "text-green-600" <==> score >= 80
    ensures c == "text-yellow-600" <==> 60 <= score < 80
    ensures c == "text-red-600" <==> score < 60
  {
    if score >= 80 then "text-green-600"
    else if score >= 60 then "text-yellow-600"
    else "text-red-600"
  }

  /** `getScoreBg`. */
  function ScoreBg(score: int): (c: string)
    ensures c == "bg-green-500" <==> score >= 80
    ensures c == "bg-yellow-500" <==> 60 <= score < 80
    ensures c == "bg-red-500" <==> score < 60
  {
    if score >= 80 then "bg-green-500"
    else if score >= 60 then "bg-yellow-500"
    else "bg-red-500"
  }

  /** The text colour and the background of a score are always the same hue, its band's. */
  lemma ColorAndBackgroundAgree(score: int)
    ensures ScoreColor(score) == "text-" + Hue(ScoreBand(score)) + "-600"
    ensures ScoreBg(score) == "bg-" + Hue(ScoreBand(score)) + "-500"
  {
  }

  /** The view's state. */
  class ResumeScorer {
    var resume: string
    var jobDescription: string
    var result: Option<ScoreResult>
    var loading: bool

    constructor ()
      ensures resume == [] && jobDescription == [] && result == None && !loading
    {
      resume := [];
      jobDescription := [];
      result := None;
      loading := false;
    }

    /**
     * `handleScore`. An empty résumé or job description alerts and stops, with
     * nothing changed. Otherwise the result is replaced only by a successful
     * request, a failed one alerts, and loading ends false either way.
     */
    method HandleScore(post: (string, string) -> Result<ScoreResult, string>) returns (alerted: Option<string>)
      modifies this
      ensures resume == old(resume) && jobDescription == old(jobDescription)
      ensures old(resume) == [] || old(jobDescription) == [] ==>
        alerted == Some(FillBothAlert) && result == old(result) && loading == old(loading)
      ensures old(resume) != [] && old(jobDescription) != [] ==>
        var sent := post(old(resume), old(jobDescription));
        && !loading
        && (sent.Ok? ==> result == Some(sent.value) && alerted == None)
        && (sent.Err? ==> result == old(result) && alerted == Some(RetryAlert))
    {
      if resume == [] || jobDescription == [] {
        return Some(FillBothAlert);
      }
      loading := true;
      var sent := post(resume, jobDescription);
      if sent.Ok? {
        result := Some(sent.value);
        alerted := None;
      } else {
        alerted := Some(RetryAlert);
      }
      loading := false;
    }
  }
}
