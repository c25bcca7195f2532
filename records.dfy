/** The status record kept per stream id in `stream_status`. */
module Records {
  import opened Common

  /** The values the record's "status" key takes. */
  datatype Status =
    | Downloading
    | Scheduled
    | Downloaded
    | Streaming
    | Error
    | StreamStopped
    | DownloadFailed

  /** The literal text stored under "status". */
  function Label(s: Status): string {
    match s
    case Downloading => "Downloading"
    case Scheduled => "Scheduled"
    case Downloaded => "Downloaded"
    case Streaming => "Streaming"
    case Error => "Error"
    case StreamStopped => "Stream stopped"
    case DownloadFailed => "Error: Failed to download from S3"
  }

  /** The destination list of a start request. The record, the launch step and the
      bandwidth monitors all hold the same list, and a partial stop removes from it
      in place, so it is an object rather than a value. */
  class Destinations {
    var items: seq<string>

    constructor (items: seq<string>)
      ensures this.items == items
    {
      this.items := items;
    }
  }

  /** A status record: a dictionary whose keys vary with the step that wrote it.
      An absent key is `None`. */
  datatype Record = Record(
    status: Status,
    remaining: Option<int>,              // "remaining_duration"
    destinations: Option<Destinations>,  // "destination"
    scheduledStart: Option<int>,         // "scheduled_start_time"
    redundant: Option<bool>,             // "redundant"
    file: Option<string>,                // "file"
    message: Option<string>)             // "message"

  /** `{"status": "Stream stopped", "remaining_duration": 0}` */
  function StoppedRecord(): Record {
    Record(StreamStopped, Some(0), None, None, None, None, None)
  }

  /** `{"status": "Error", "message": msg}` */
  function ErrorRecord(msg: string): Record {
    Record(Error, None, None, None, None, None, Some(msg))
  }

  /** What the stop path leaves in place of an existing record: the guard compares
      the status text with exactly "Error". */
  function AfterStop(r: Record): (s: Record)
    ensures r.status == Error ==> s == r
    ensures r.status != Error ==> s.status == StreamStopped && s.remaining == Some(0)
    ensures s.status == Error || s.status == StreamStopped
  {
    if Label(r.status) != "Error" then StoppedRecord() else r
  }

  /** Distinct statuses have distinct texts, so comparing texts compares statuses. */
  lemma LabelInjective(a: Status, b: Status)
    ensures Label(a) == Label(b) <==> a == b
  {
    if a != b {
      assert Label(a) != Label(b) by {
        match a
        case Downloading => assert Label(a)[0] == 'D' && |Label(a)| == 11;
        case Scheduled => assert Label(a)[0] == 'S' && |Label(a)| == 9;
        case Downloaded => assert Label(a)[0] == 'D' && |Label(a)| == 10;
        case Streaming => assert Label(a)[0] == 'S' && |Label(a)| == 9 && Label(a)[1] == 't';
        case Error => assert |Label(a)| == 5;
        case StreamStopped => assert |Label(a)| == 14;
        case DownloadFailed => assert |Label(a)| == 33;
      }
    }
  }

  /** A second stop leaves the record as the first one left it. */
  lemma AfterStopIdempotent(r: Record)
    ensures AfterStop(AfterStop(r)) == AfterStop(r)
  {
  }

  /** A failed download is recorded under a text that is not exactly "Error", so
      a later stop replaces it with the stopped record. */
  lemma DownloadFailureNotKept(r: Record)
    requires r.status == DownloadFailed
    ensures AfterStop(r) == StoppedRecord()
  {
  }
}
