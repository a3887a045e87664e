/** Moderated content, the review queue, the log of decisions, and the services that move them together. */
module Moderation {
  import opened Wrappers
  import opened Text
  import opened Publication

  datatype Kind = Post | Reel | Story

  datatype Content = Content(kind: Kind, status: Status, processing: ProcessingStatus, deleted: bool, caption: string)

  datatype QueueStatus = Pending | WasApproved | WasRejected

  datatype QueueRow = QueueRow(content: nat, status: QueueStatus)

  datatype LogRow = LogRow(row: nat, reviewer: int, approved: bool, reason: string)

  /** Rows are never removed; the primary key of the row at index `i` is `i + 1`. */
  datatype Records = Records(contents: seq<Content>, queue: seq<QueueRow>, log: seq<LogRow>)

  datatype Verdict = Approve | Reject(reason: string)

  /** How a transcode goes: an exception fails it, also one raised after the finished reel was saved. */
  datatype Transcode = Succeeds | FailsBeforeStore | FailsAfterStore

  datatype Refusal = NoReason | AlreadyDecided | NoSuchRow

  /** Content that waits for transcoding is not queued when it is created. */
  predicate AutoEnqueue(kind: Kind) {
    !kind.Reel?
  }

  /** `published_objects` of posts and reels. */
  predicate Visible(c: Content) {
    Public(c.status, c.deleted, c.kind.Reel?, c.processing)
  }

  function StatusAfter(v: Verdict): Status {
    if v.Approve? then Published else Rejected
  }

  function QueueStatusAfter(v: Verdict): QueueStatus {
    if v.Approve? then WasApproved else WasRejected
  }

  /** The reason as logged: none for an approval, stripped for a rejection. */
  function LoggedReason(v: Verdict): string {
    if v.Approve? then "" else Strip(v.reason)
  }

  /** A rejection without a reason is refused before anything is read. */
  predicate Acceptable(v: Verdict) {
    v.Reject? ==> Strip(v.reason) != ""
  }

  /** All three changes of a decision; `copy` is the content row as it was loaded. */
  function Decided(r: Records, q: nat, copy: Content, reviewer: int, v: Verdict): Records
    requires q < |r.queue| && r.queue[q].content < |r.contents|
  {
    Records(r.contents[r.queue[q].content := copy.(status := StatusAfter(v))],
            r.queue[q := r.queue[q].(status := QueueStatusAfter(v))],
            r.log + [LogRow(q, reviewer, v.Approve?, LoggedReason(v))])
  }

  predicate Queued(r: Records, c: nat) {
    exists q :: 0 <= q < |r.queue| && r.queue[q].content == c
  }

  function Enqueued(r: Records, c: nat): Records {
    r.(queue := r.queue + [QueueRow(c, Pending)])
  }

  /** The stored tables, and the services as they run undisturbed. */
  class ModerationStore {
    var contents: seq<Content>
    var queue: seq<QueueRow>
    var log: seq<LogRow>

    ghost function Contents(): Records
      reads this
    {
      Records(contents, queue, log)
    }

    /** Every queue row points at a content row. */
    ghost predicate Valid()
      reads this
    {
      forall q :: 0 <= q < |queue| ==> queue[q].content < |contents|
    }

    method Decide(q: nat, reviewer: int, v: Verdict)
      requires Valid() && q < |queue|
      modifies this
      ensures Valid() && Contents() == Decided(old(Contents()), q, old(contents[queue[q].content]), reviewer, v)
    {
      var locked, content := queue[q], contents[queue[q].content];
      queue := queue[q := locked.(status := QueueStatusAfter(v))];
      contents := contents[locked.content := content.(status := StatusAfter(v))];
      log := log + [LogRow(q, reviewer, v.Approve?, LoggedReason(v))];
    }

    method ApproveItem(q: nat, reviewer: int) returns (refusal: Option<Refusal>)
      requires Valid()
      modifies this
      ensures Valid()
      ensures refusal == if q >= |old(queue)| then Some(NoSuchRow)
                         else if !old(queue[q]).status.Pending? then Some(AlreadyDecided) else None
      ensures refusal.Some? ==> Contents() == old(Contents())
      ensures refusal.None? ==>
                Contents() == Decided(old(Contents()), q, old(contents[queue[q].content]), reviewer, Approve)
      ensures refusal.None? ==>
                && contents == old(contents)[old(queue[q].content)
                                               := old(contents[queue[q].content]).(status := Published)]
                && queue == old(queue)[q := old(queue[q]).(status := WasApproved)]
                && log == old(log) + [LogRow(q, reviewer, true, "")]
    {
      if q >= |queue| {
        return Some(NoSuchRow);
      }
      if !queue[q].status.Pending? {
        return Some(AlreadyDecided);
      }
      Decide(q, reviewer, Approve);
      refusal := None;
    }

    method RejectItem(q: nat, reviewer: int, reason: string) returns (refusal: Option<Refusal>)
      requires Valid()
      modifies this
      ensures Valid()
      ensures refusal == if Strip(reason) == "" then Some(NoReason)
                         else if q >= |old(queue)| then Some(NoSuchRow)
                         else if !old(queue[q]).status.Pending? then Some(AlreadyDecided) else None
      ensures refusal.Some? ==> Contents() == old(Contents())
      ensures refusal.None? ==>
                Contents() == Decided(old(Contents()), q, old(contents[queue[q].content]), reviewer, Reject(reason))
      ensures refusal.None? ==>
                && contents == old(contents)[old(queue[q].content)
                                               := old(contents[queue[q].content]).(status := Rejected)]
                && queue == old(queue)[q := old(queue[q]).(status := WasRejected)]
                && log == old(log) + [LogRow(q, reviewer, false, Strip(reason))]
    {
      if Strip(reason) == "" {
        return Some(NoReason);
      }
      if q >= |queue| {
        return Some(NoSuchRow);
      }
      if !queue[q].status.Pending? {
        return Some(AlreadyDecided);
      }
      Decide(q, reviewer, Reject(reason));
      refusal := None;
    }

    /** Saves a new item; the post-save signal queues it unless its kind opts out. */
    method CreateItem(kind: Kind, caption: string) returns (c: nat)
      requires Valid()
      modifies this
      ensures Valid() && c == |old(contents)|
      ensures var content := Content(kind, PendingReview, Uploaded, false, caption);
              var saved := old(Contents()).(contents := old(contents) + [content]);
              Contents() == if AutoEnqueue(kind) then Enqueued(saved, c) else saved
      ensures contents == old(contents) + [Content(kind, PendingReview, Uploaded, false, caption)]
      ensures queue == if kind == Reel then old(queue) else old(queue) + [QueueRow(c, Pending)]
      ensures log == old(log)
    {
      c := |contents|;
      contents := contents + [Content(kind, PendingReview, Uploaded, false, caption)];
      if AutoEnqueue(kind) {
        queue := queue + [QueueRow(c, Pending)];
      }
    }

    /** Transcodes one reel, with the given outcome, and queues it on success. */
    method TranscodeReel(c: nat, outcome: Transcode)
      requires Valid()
      modifies this
      ensures Valid() && log == old(log)
      ensures c >= |old(contents)| || old(contents[c]).deleted || !old(contents[c]).kind.Reel? ==>
                Contents() == old(Contents())
      ensures c < |old(contents)| && !old(contents[c]).deleted && old(contents[c]).kind.Reel? ==>
                var reached := if outcome.Succeeds? then Ready else Failed;
                && contents == old(contents)[c := old(contents[c]).(processing := reached)]
                && queue == if outcome.Succeeds? && forall q :: 0 <= q < |old(queue)| ==> old(queue)[q].content != c
                            then old(queue) + [QueueRow(c, Pending)] else old(queue)
    {
      if c >= |contents| || contents[c].deleted || !contents[c].kind.Reel? {
        return;
      }
      var reel := contents[c];
      reel := reel.(processing := Processing);
      contents := contents[c := reel];
      if outcome.FailsBeforeStore? {
        contents := contents[c := contents[c].(processing := Failed)];
        return;
      }
      reel := reel.(processing := Ready);
      contents := contents[c := reel];
      if outcome.FailsAfterStore? {
        contents := contents[c := contents[c].(processing := Failed)];
        return;
      }
      if !Queued(Records(contents, queue, log), c) {
        queue := queue + [QueueRow(c, Pending)];
      }
    }
  }
}
