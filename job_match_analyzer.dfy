/**
 * The job-match analyzer panel: two inputs (a URL tab and a description
 * tab), the analyze action that posts to the job-match endpoint, and the
 * colour bands used to show the result.
 *
 * The request's fate is handed in as a `Reply`; the panel records every
 * request body it posts in `requests` and every toast it shows in `toasts`.
 * The analysis itself is opaque (type parameter `J`).
 */
module JobMatchAnalyzer {
  import opened JsText
  import JobMatchRoute

  datatype InputMethod = Url | Text

  datatype Toast = ErrorToast(text: string) | SuccessToast(text: string)

  const NeedInput := "Please provide a job URL or description"
  const AnalyzeFailed := "Failed to analyze job"
  const AnalysisComplete := "Job analysis complete!"

  /** The posted body: only the active tab's field is sent; the other is
      `undefined`, which the endpoint reads like "". */
  function RequestBody(mode: InputMethod, jobUrl: string, jobDescription: string): (r: JobMatchRoute.JobRequest)
    ensures mode == Url ==> r.jobUrl == jobUrl && r.jobDescription == ""
    ensures mode == Text ==> r.jobUrl == "" && r.jobDescription == jobDescription
  {
    match mode
    case Url => JobMatchRoute.JobRequest(jobUrl, "")
    case Text => JobMatchRoute.JobRequest("", jobDescription)
  }

  /** The body never carries both fields. */
  lemma NeverBoth(mode: InputMethod, jobUrl: string, jobDescription: string)
    ensures RequestBody(mode, jobUrl, jobDescription).jobUrl == ""
            || RequestBody(mode, jobUrl, jobDescription).jobDescription == ""
  {
  }

  /** The panel's own guard: at least one of the two inputs is filled. */
  predicate HasInput(jobUrl: string, jobDescription: string) {
    jobUrl != "" || jobDescription != ""
  }

  /** The guard looks at both inputs, the body at the active tab only: with
      the URL tab active and only a description typed, the panel posts a
      body in which both fields are empty, which the endpoint refuses with
      400. */
  lemma UrlTabDropsDescription(jobDescription: string)
    requires jobDescription != ""
    ensures HasInput("", jobDescription)
    ensures RequestBody(Url, "", jobDescription) == JobMatchRoute.JobRequest("", "")
  {
  }

  /** What became of the request. */
  datatype Reply<J> =
    | FetchThrew(thrown: JsError)        // the request did not complete
    | Unreadable(thrown: JsError)        // the body was not JSON
    | Rejected(error: string)            // not OK; the body's `error`, "" when absent
    | Accepted(analysis: J)              // OK, with the analysis

  /** The toast shown after an attempt that reached the request. */
  function Settle<J>(reply: Reply<J>): (t: Toast)
    ensures t.SuccessToast? <==> reply.Accepted?
    ensures t.SuccessToast? ==> t.text == AnalysisComplete
    ensures reply.Rejected? ==> t.text == if reply.error != "" then reply.error else AnalyzeFailed
    ensures (reply.FetchThrew? || reply.Unreadable?) ==>
              t.text == if reply.thrown.NotAnError? then AnalyzeFailed else reply.thrown.message
  {
    match reply
    case Accepted(_) => SuccessToast(AnalysisComplete)
    case Rejected(e) => ErrorToast(if e != "" then e else AnalyzeFailed)
    case FetchThrew(e) => ErrorToast(if e.NotAnError? then AnalyzeFailed else e.message)
    case Unreadable(e) => ErrorToast(if e.NotAnError? then AnalyzeFailed else e.message)
  }

  class Analyzer<J> {
    var jobUrl: string
    var jobDescription: string
    var isAnalyzing: bool
    var result: Option<J>
    var inputMethod: InputMethod
    var requests: seq<JobMatchRoute.JobRequest>
    var toasts: seq<Toast>

    constructor ()
      ensures jobUrl == "" && jobDescription == "" && !isAnalyzing && result.None?
      ensures inputMethod == Url && requests == [] && toasts == []
    {
      jobUrl := "";
      jobDescription := "";
      isAnalyzing := false;
      result := None;
      inputMethod := Url;
      requests := [];
      toasts := [];
    }

    /** Typing into the URL input. */
    method SetJobUrl(value: string)
      modifies this
      ensures jobUrl == value && jobDescription == old(jobDescription) && inputMethod == old(inputMethod)
      ensures isAnalyzing == old(isAnalyzing) && result == old(result)
      ensures requests == old(requests) && toasts == old(toasts)
    {
      jobUrl := value;
    }

    /** Typing into the description input. */
    method SetJobDescription(value: string)
      modifies this
      ensures jobDescription == value && jobUrl == old(jobUrl) && inputMethod == old(inputMethod)
      ensures isAnalyzing == old(isAnalyzing) && result == old(result)
      ensures requests == old(requests) && toasts == old(toasts)
    {
      jobDescription := value;
    }

    /** Switching tabs keeps what was typed in both inputs. */
    method SetInputMethod(mode: InputMethod)
      modifies this
      ensures inputMethod == mode && jobUrl == old(jobUrl) && jobDescription == old(jobDescription)
      ensures isAnalyzing == old(isAnalyzing) && result == old(result)
      ensures requests == old(requests) && toasts == old(toasts)
    {
      inputMethod := mode;
    }

    /** The analyze button is disabled while analyzing or with both inputs
        empty: a click the button lets through always gets past the
        action's own guard. */
    function AnalyzeDisabled(): (d: bool)
      reads this
      ensures !d ==> HasInput(jobUrl, jobDescription) && !isAnalyzing
      ensures jobUrl == "" && jobDescription == "" ==> d
    {
      isAnalyzing || !HasInput(jobUrl, jobDescription)
    }

    /** The analyze action. With both inputs empty it only shows a toast;
        otherwise it posts the active tab's field, clears the old result
        while the request runs, keeps the analysis when one comes back, and
        always ends not analyzing. */
    method AnalyzeJob(reply: Reply<J>)
      modifies this
      ensures jobUrl == old(jobUrl) && jobDescription == old(jobDescription) && inputMethod == old(inputMethod)
      ensures !old(AnalyzeDisabled()) ==>
                requests == old(requests) + [RequestBody(old(inputMethod), old(jobUrl), old(jobDescription))]
      ensures !HasInput(old(jobUrl), old(jobDescription)) ==>
                toasts == old(toasts) + [ErrorToast(NeedInput)] && requests == old(requests)
                && isAnalyzing == old(isAnalyzing) && result == old(result)
      ensures HasInput(old(jobUrl), old(jobDescription)) ==>
                requests == old(requests) + [RequestBody(old(inputMethod), old(jobUrl), old(jobDescription))]
                && toasts == old(toasts) + [Settle(reply)] && !isAnalyzing
                && (reply.Accepted? ==> result == Some(reply.analysis))
                && (!reply.Accepted? ==> result.None?)
    {
      if !HasInput(jobUrl, jobDescription) {
        toasts := toasts + [ErrorToast(NeedInput)];
        return;
      }
      isAnalyzing := true;
      result := None;
      requests := requests + [RequestBody(inputMethod, jobUrl, jobDescription)];
      var toast := Settle(reply);
      if reply.Accepted? {
        result := Some(reply.analysis);
      }
      toasts := toasts + [toast];
      isAnalyzing := false;
    }
  }

  /** The colour band of a match score. */
  datatype Band = Red | Yellow | Green

  function ScoreBand(score: real): (b: Band)
    ensures b == Green <==> score >= 80.0
    ensures b == Yellow <==> 60.0 <= score < 80.0
    ensures b == Red <==> score < 60.0
  {
    if score >= 80.0 then Green else if score >= 60.0 then Yellow else Red
  }

  function Rank(b: Band): nat {
    match b
    case Red => 0
    case Yellow => 1
    case Green => 2
  }

  /** A higher score never gets a worse band. */
  lemma ScoreBandMonotone(s: real, t: real)
    requires s <= t
    ensures Rank(ScoreBand(s)) <= Rank(ScoreBand(t))
  {
  }

  /** `getScoreColor`. */
  function ScoreColor(score: real): (c: string)
    ensures ScoreBand(score) == Green ==> c == "text-green-600 dark:text-green-400"
    ensures ScoreBand(score) == Yellow ==> c == "text-yellow-600 dark:text-yellow-400"
    ensures ScoreBand(score) == Red ==> c == "text-red-600 dark:text-red-400"
  {
    if score >= 80.0 then "text-green-600 dark:text-green-400"
    else if score >= 60.0 then "text-yellow-600 dark:text-yellow-400"
    else "text-red-600 dark:text-red-400"
  }

  /** `getRecommendationColor`: three named verdicts, red for anything else. */
  function RecommendationColor(rec: string): (c: string)
    ensures rec == "Strong Yes" ==> c == "bg-green-500/20 text-green-700 dark:text-green-400 border-green-500/50"
    ensures rec == "Yes" ==> c == "bg-blue-500/20 text-blue-700 dark:text-blue-400 border-blue-500/50"
    ensures rec == "Maybe" ==> c == "bg-yellow-500/20 text-yellow-700 dark:text-yellow-400 border-yellow-500/50"
    ensures rec !in ["Strong Yes", "Yes", "Maybe"] ==> c == "bg-red-500/20 text-red-700 dark:text-red-400 border-red-500/50"
  {
    if rec == "Strong Yes" then "bg-green-500/20 text-green-700 dark:text-green-400 border-green-500/50"
    else if rec == "Yes" then "bg-blue-500/20 text-blue-700 dark:text-blue-400 border-blue-500/50"
    else if rec == "Maybe" then "bg-yellow-500/20 text-yellow-700 dark:text-yellow-400 border-yellow-500/50"
    else "bg-red-500/20 text-red-700 dark:text-red-400 border-red-500/50"
  }
}
