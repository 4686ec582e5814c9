/** The upload/history state of the `App` component in frontend/src/App.js:
    the selected file, the latest summary, the history list and the loading
    flag, with each event handler as one atomic step. Network outcomes are
    inputs. */
module Controller {
  import opened Wrappers
  import opened JsValues

  /** A browser `File`, known here by its name only. */
  datatype FileRef = FileRef(name: string)

  /** How the POST to the upload endpoint ended. */
  datatype UploadOutcome =
    | NotOk(status: int)          // `!res.ok`: the handler throws
    | Threw                       // `fetch` or `res.json()` rejected
    | Responded(data: Summary)    // a JSON body was read

  /** How the initial GET of the history ended. */
  datatype FetchOutcome = Fetched(data: seq<Summary>) | FetchFailed

  /** The blocking alert a handler shows. */
  datatype Notice = SelectFirst | UploadFailed | UploadSucceeded

  function NoticeText(n: Notice): string {
    match n
    case SelectFirst => "Please select a CSV file"
    case UploadFailed => "Upload failed"
    case UploadSucceeded => "Upload successful"
  }

  /** The upload counts as a success when a body arrived and its `success` is truthy. */
  predicate Accepted(o: UploadOutcome) {
    o.Responded? && Truthy(o.data.success)
  }

  /** The data behind the bar chart (`getEquipmentTypeChartData`): the
      type-distribution keys paired with their values, or nothing without a
      summary or with a falsy distribution. */
  datatype ChartSeries = ChartSeries(labels: seq<string>, values: seq<Value>)

  function ChartData(summary: Option<Summary>): (c: Option<ChartSeries>)
    ensures c.None? <==>
              summary.None? || (summary.value.typeDistribution.Scalar? && !Truthy(summary.value.typeDistribution.v))
    ensures c.Some? ==> |c.value.labels| == |c.value.values|
    ensures c.Some? && summary.value.typeDistribution.Obj? ==>
              var e := summary.value.typeDistribution.entries;
              |c.value.labels| == |e| &&
              forall i :: 0 <= i < |e| ==> (c.value.labels[i], c.value.values[i]) == e[i]
    ensures c.Some? && summary.value.typeDistribution.Scalar? ==> c.value.labels == []
  {
    if summary.None? then None
    else
      match summary.value.typeDistribution
      case Scalar(v) => if Truthy(v) then Some(ChartSeries([], [])) else None
      case Obj(e) =>
        Some(ChartSeries(seq(|e|, i requires 0 <= i < |e| => e[i].0),
                         seq(|e|, i requires 0 <= i < |e| => e[i].1)))
  }

  class Dashboard {
    var file: Option<FileRef>
    var summary: Option<Summary>
    var history: seq<Summary>
    var loading: bool

    /** The initial state of the component. */
    constructor ()
      ensures file == None && summary == None && history == [] && !loading
    {
      file := None;
      summary := None;
      history := [];
      loading := false;
    }

    /** `handleFileChange`: the first chosen file, or none. */
    method SelectFile(f: Option<FileRef>)
      modifies this
      ensures file == f
      ensures summary == old(summary) && history == old(history) && loading == old(loading)
    {
      file := f;
    }

    /** `uploadFile`. Without a file it only alerts. Otherwise a failed
        request, a thrown error or a falsy `success` leave the summary,
        history and file as they were; a success makes the response the
        summary, puts it in front of the history and clears the file. The
        loading flag, raised for the request, is down again afterwards. */
    method Upload(outcome: UploadOutcome) returns (notice: Notice)
      modifies this
      ensures NoticeText(notice) ==
                if old(file).None? then "Please select a CSV file"
                else if Accepted(outcome) then "Upload successful"
                else "Upload failed"
      ensures old(file).None? ==> loading == old(loading)
      ensures old(file).Some? ==> !loading
      ensures old(file).None? ==>
                notice == SelectFirst &&
                file == old(file) && summary == old(summary) && history == old(history)
      ensures old(file).Some? && !Accepted(outcome) ==>
                notice == UploadFailed &&
                file == old(file) && summary == old(summary) && history == old(history)
      ensures old(file).Some? && Accepted(outcome) ==>
                notice == UploadSucceeded &&
                file == None && summary == Some(outcome.data) &&
                history == [outcome.data] + old(history) &&
                |history| == |old(history)| + 1 && history[1..] == old(history)
    {
      if file.None? {
        notice := SelectFirst;
        return;
      }
      loading := true;
      match outcome {
        case NotOk(_) =>
          notice := UploadFailed;
        case Threw =>
          notice := UploadFailed;
        case Responded(data) =>
          if !Truthy(data.success) {
            notice := UploadFailed;
          } else {
            summary := Some(data);
            notice := UploadSucceeded;
            file := None;
            history := [data] + history;
          }
      }
      loading := false;
    }

    /** The "Clear History" button. */
    method ClearHistory()
      modifies this
      ensures history == []
      ensures file == old(file) && summary == old(summary) && loading == old(loading)
    {
      history := [];
    }

    /** The initial fetch: a response replaces the history wholesale; a
        failure is swallowed and changes nothing. */
    method LoadHistory(outcome: FetchOutcome)
      modifies this
      ensures outcome.Fetched? ==> history == outcome.data
      ensures outcome.FetchFailed? ==> history == old(history)
      ensures file == old(file) && summary == old(summary) && loading == old(loading)
    {
      if outcome.Fetched? {
        history := outcome.data;
      }
    }
  }
}
