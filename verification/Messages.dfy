/** Kafka messages of one crawl job, who owns them, and the per-message settle wrapper
    (workers/common.py, process_message_safely of the workers). */
module Messages {
  import opened Common
  import opened JobRow

  datatype WorkerType = Surface | Deep | Dark | Discovery | Transcriber

  /** The workers a page can be assigned to. */
  type CrawlWorker = w: WorkerType | w.Surface? || w.Deep? || w.Dark? witness Surface

  const CRAWL_GROUPS: set<WorkerType> := {Surface, Deep, Dark}

  function WorkerName(w: WorkerType): string {
    match w
    case Surface => "surface"
    case Deep => "deep"
    case Dark => "dark"
    case Discovery => "discovery"
    case Transcriber => "transcriber"
  }

  lemma WorkerNameInjective(a: WorkerType, b: WorkerType)
    ensures WorkerName(a) == WorkerName(b) ==> a == b
  {
    var x, y := WorkerName(a), WorkerName(b);
    if a != b {
      assert |x| != |y| || x[0] != y[0] || x[1] != y[1];
    }
  }

  /** recursive_config: the keys the crawl reads. */
  datatype CrawlConfig = CrawlConfig(
    enableExtraction: bool,
    seedUrl: Option<Text>,
    sameDomainOnly: Option<bool>,
    skipDomains: seq<Text>,
    linkFilterPatterns: seq<Text>)

  datatype Message =
    | Page(url: Text, owner: WorkerType, depth: int, maxDepth: int, retryCount: nat, config: CrawlConfig)
    | Search(query: Text, searchDepth: int, searchConfig: CrawlConfig)
    | Audio(audioUrl: Text)

  function Owner(m: Message): WorkerType {
    match m
    case Page(_, owner, _, _, _, _) => owner
    case Search(_, _, _) => Discovery
    case Audio(_) => Transcriber
  }

  /** The consumer groups that receive a message: the crawl topic feeds three. */
  function Groups(m: Message): set<WorkerType> {
    match m
    case Page(_, _, _, _, _, _) => CRAWL_GROUPS
    case Search(_, _, _) => {Discovery}
    case Audio(_) => {Transcriber}
  }

  /** A Kafka topic as its producers see it. A send that raises stores nothing. */
  class Topic {
    var messages: seq<Message>

    constructor ()
      ensures messages == []
    {
      messages := [];
    }

    method SendAndWait(m: Message, accepted: bool) returns (ok: bool)
      modifies this
      ensures ok == accepted
      ensures messages == if accepted then old(messages) + [m] else old(messages)
    {
      if accepted {
        messages := messages + [m];
      }
      ok := accepted;
    }
  }

  // ---------------------------------------------------------------------
  // workers/common.py
  // ---------------------------------------------------------------------

  /** A raw message as json.loads sees it. */
  datatype Envelope = Malformed | Fields(jobId: Option<string>, workerType: Option<string>)

  function Truthy(field: Option<string>): Option<string> {
    if field == Some("") then None else field
  }

  function JobIdOf(e: Envelope): Option<string> {
    if e.Malformed? then None else Truthy(e.jobId)
  }

  function MessageWorkerType(e: Envelope): Option<string> {
    if e.Malformed? then None else Truthy(e.workerType)
  }

  predicate OwnsMessage(e: Envelope, workerType: string) {
    match MessageWorkerType(e)
    case None => true
    case Some(w) => w == workerType
  }

  function SettleFromMessage(row: Row, e: Envelope, workerType: string, failed: bool): Row {
    if JobIdOf(e) == None || !OwnsMessage(e, workerType) then row else CompleteTask(row, failed)
  }

  function FailFromMessage(row: Row, e: Envelope, workerType: string): Row {
    if JobIdOf(e) == None || !OwnsMessage(e, workerType) then row else UpdateStatus(row, Failed)
  }

  /** The message parses, names a job, and names either no worker or this one. */
  predicate Concerns(e: Envelope, workerType: string) {
    && e.Fields? && e.jobId != None && e.jobId != Some("")
    && e.workerType in {None, Some(""), Some(workerType)}
  }

  /** What json.loads reads back from a message of job jobId. */
  function EnvelopeOf(jobId: string, m: Message): Envelope {
    Fields(Some(jobId), if m.Page? then Some(WorkerName(m.owner)) else None)
  }

  /** Of the three deliveries of one page message exactly the owner's can settle it. */
  lemma OnlyTheOwnerSettles(row: Row, jobId: string, m: Message, w: WorkerType, failed: bool)
    requires jobId != "" && m.Page?
    ensures SettleFromMessage(row, EnvelopeOf(jobId, m), WorkerName(w), failed)
         == if w == m.owner then CompleteTask(row, failed) else row
    ensures FailFromMessage(row, EnvelopeOf(jobId, m), WorkerName(w))
         == if w == m.owner then UpdateStatus(row, Failed) else row
  {
    WorkerNameInjective(w, m.owner);
    assert |WorkerName(m.owner)| > 0;
  }

  // ---------------------------------------------------------------------
  // process_message_safely
  // ---------------------------------------------------------------------

  datatype Outcome = Returned | Cancelled | TimedOut | Raised

  /** The row after the wrapper has run with nothing else in between. */
  function Wrapped(row: Row, e: Envelope, w: string, outcome: Outcome, timeoutFailsJob: bool): Row {
    match outcome
    case Returned => SettleFromMessage(row, e, w, false)
    case Cancelled => SettleFromMessage(row, e, w, false)
    case TimedOut =>
      if timeoutFailsJob then SettleFromMessage(FailFromMessage(row, e, w), e, w, true)
      else SettleFromMessage(row, e, w, false)
    case Raised => SettleFromMessage(FailFromMessage(row, e, w), e, w, true)
  }

  /** timeoutFailsJob is true in tmpout/orig_deep.py and false in workers/deep-worker/main.py. */
  method ProcessMessageSafely(db: JobTable, e: Envelope, w: string, outcome: Outcome, timeoutFailsJob: bool)
    returns (reraised: bool)
    modifies db
    ensures db.row == Wrapped(old(db.row), e, w, outcome, timeoutFailsJob)
    ensures reraised <==> outcome.Cancelled?
  {
    var fatal := false;
    reraised := false;
    match outcome {
      case Returned =>
      case Cancelled => reraised := true;
      case TimedOut =>
        if timeoutFailsJob {
          if OwnsMessage(e, w) {
            FailJobFromMessage(db, e, w);
          }
          fatal := true;
        }
      case Raised =>
        fatal := true;
        if OwnsMessage(e, w) {
          FailJobFromMessage(db, e, w);
        }
    }
    CompleteJobTaskFromMessage(db, e, w, fatal);
  }

  method FailJobFromMessage(db: JobTable, e: Envelope, w: string)
    modifies db
    ensures db.row == FailFromMessage(old(db.row), e, w)
    ensures db.row == if Concerns(e, w) && old(db.row).status != Completed then old(db.row).(status := Failed)
                      else old(db.row)
  {
    if JobIdOf(e) == None { return; }
    if !OwnsMessage(e, w) { return; }
    db.FailJob();
  }

  method CompleteJobTaskFromMessage(db: JobTable, e: Envelope, w: string, failed: bool)
    modifies db
    ensures db.row == SettleFromMessage(old(db.row), e, w, failed)
    ensures db.row == if Concerns(e, w) then CompleteTask(old(db.row), failed) else old(db.row)
  {
    if JobIdOf(e) == None { return; }
    if !OwnsMessage(e, w) { return; }
    var _ := db.CompleteJobTask(failed);
  }

  /** However the handler ends, the owner gives back exactly one slot, unless it crashes in a job
      that is completed already, and every other worker leaves the row alone. A crash, or a
      timeout where it counts as one, fails the job for good; any other ending decides the job
      when it was the last one out. Even a paused job loses no slot: the wrapper marks the job
      failed before the settlement whose guard skips paused rows. */
  lemma WrapperSettlesOnce(row: Row, jobId: string, m: Message, w: WorkerType, outcome: Outcome,
                           timeoutFailsJob: bool)
    requires jobId != "" && m.Page? && row.activeTasks >= 1
    ensures var after := Wrapped(row, EnvelopeOf(jobId, m), WorkerName(w), outcome, timeoutFailsJob);
            if w != m.owner then after == row
            else if outcome == Raised || (outcome == TimedOut && timeoutFailsJob) then
              after == if row.status == Completed then row
                       else row.(status := Failed, activeTasks := row.activeTasks - 1)
            else if row.activeTasks == 1 && row.status in {Pending, Running, NeedsReview} then
              after == row.(status := if row.pageStored then Completed else Failed, activeTasks := 0)
            else after == row.(activeTasks := row.activeTasks - 1)
  {
    OnlyTheOwnerSettles(row, jobId, m, w, false);
    OnlyTheOwnerSettles(UpdateStatus(row, Failed), jobId, m, w, true);
    OnlyTheOwnerSettles(row, jobId, m, w, true);
  }
}
