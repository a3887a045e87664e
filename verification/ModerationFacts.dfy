/** What decisions, creations, edits and transcodes do, said in the fields of the rows alone. */
module ModerationFacts {
  import opened Text
  import opened Publication
  import opened Moderation
  import opened ModerationRuns

  /** The public sees this row. */
  predicate IsShown(c: Content) {
    c.status == Published && !c.deleted && (c.kind == Reel ==> c.processing == Ready)
  }

  lemma VisibleInFields(c: Content)
    ensures Visible(c) <==> IsShown(c)
  {
  }

  /** What a commit does with the copy of the content that was read under the lock: an approval shows it unless it was
    * deleted or is an unfinished reel, a rejection hides it.
    */
  lemma CommitInFields(w: World, id: nat)
    requires WorldOk(w) && id in w.processes && w.processes[id].Deciding? && w.processes[id].at.Read?
    ensures Enabled(w, CommitDecision(id))
    ensures var p, r, r' := w.processes[id], w.records, Do(w, CommitDecision(id)).records;
            var c, copy := r.queue[p.q].content, p.at.copy;
            && r'.contents == r.contents[c := copy.(status := if p.verdict.Approve? then Published else Rejected)]
            && r'.queue == r.queue[p.q := QueueRow(c, if p.verdict.Approve? then WasApproved else WasRejected)]
            && r'.log == r.log + [LogRow(p.q, p.reviewer, p.verdict.Approve?,
                                         if p.verdict.Approve? then "" else Strip(p.verdict.reason))]
            && (IsShown(r'.contents[c]) <==>
                  p.verdict.Approve? && !copy.deleted && (copy.kind == Reel ==> copy.processing == Ready))
  {
    assert ProcessOk(w.records, w.processes[id]);
  }

  predicate NobodyHolds(w: World, q: nat) {
    forall id :: id in w.processes && w.processes[id].Deciding? && w.processes[id].q == q ==>
      w.processes[id].at == Waiting
  }

  function DecisionSteps(id: nat, q: nat, reviewer: int, v: Verdict): seq<Step> {
    [Request(id, q, reviewer, v), LockRow(id), ReadContent(id), CommitDecision(id)]
  }

  /** The steps can be taken one after another, and lead from `w` to `w'`. */
  ghost predicate Leads(w: World, steps: seq<Step>, w': World)
    decreases |steps|
  {
    if steps == [] then w' == w else Enabled(w, steps[0]) && Leads(Do(w, steps[0]), steps[1..], w')
  }

  lemma FourSteps(w: World, a: Step, b: Step, c: Step, d: Step, w': World)
    requires Enabled(w, a) && Enabled(Do(w, a), b) && Enabled(Do(Do(w, a), b), c)
    requires Enabled(Do(Do(Do(w, a), b), c), d) && w' == Do(Do(Do(Do(w, a), b), c), d)
    ensures Leads(w, [a, b, c, d], w')
  {
    assert [a, b, c, d][1..] == [b, c, d] && [b, c, d][1..] == [c, d] && [c, d][1..] == [d] && [d][1..] == [];
    assert Leads(Do(Do(Do(w, a), b), c), [d], w');
    assert Leads(Do(Do(w, a), b), [c, d], w');
  }

  /** A decision about a pending row that nobody else holds can always be taken to its end. */
  lemma UndisturbedDecisionInFields(w: World, id: nat, q: nat, reviewer: int, v: Verdict) returns (w': World)
    requires WorldOk(w) && id !in w.processes && q < |w.records.queue| && w.records.queue[q].status == Pending
    requires NobodyHolds(w, q) && (v.Reject? ==> Strip(v.reason) != "")
    ensures Leads(w, DecisionSteps(id, q, reviewer, v), w') && w'.processes == w.processes
    ensures var r, r' := w.records, w'.records;
            var c := r.queue[q].content;
            && c < |r.contents|
            && r'.contents
                 == r.contents[c := r.contents[c].(status := if v.Approve? then Published else Rejected)]
            && r'.queue == r.queue[q := QueueRow(c, if v.Approve? then WasApproved else WasRejected)]
            && r'.log == r.log + [LogRow(q, reviewer, v.Approve?, if v.Approve? then "" else Strip(v.reason))]
  {
    UndisturbedLock(w, id, q, reviewer, v);
    UndisturbedDecision(w, id, q, reviewer, v);
    w' := w.(records := Decided(w.records, q, w.records.contents[w.records.queue[q].content], reviewer, v));
    FourSteps(w, Request(id, q, reviewer, v), LockRow(id), ReadContent(id), CommitDecision(id), w');
  }

  /** An editor saves the whole row as it was loaded, with the new caption or marked deleted. */
  lemma SaveInFields(w: World, id: nat, caption: string)
    requires WorldOk(w) && id in w.processes && w.processes[id].Editing?
    ensures Enabled(w, SaveEdit(id, caption)) && Enabled(w, SaveDeletion(id))
    ensures var p, r := w.processes[id], w.records;
            var edited, deleted := Do(w, SaveEdit(id, caption)).records, Do(w, SaveDeletion(id)).records;
            && edited.contents == r.contents[p.c := Content(p.copy.kind, p.copy.status, p.copy.processing,
                                                            p.copy.deleted, caption)]
            && deleted.contents == r.contents[p.c := Content(p.copy.kind, p.copy.status, p.copy.processing,
                                                             true, p.copy.caption)]
            && edited.queue == deleted.queue == r.queue && edited.log == deleted.log == r.log
  {
    assert ProcessOk(w.records, w.processes[id]);
  }

  /** The transcode of a live reel up to the save of the finished reel. */
  lemma TranscodeUpToStore(w: World, id: nat, c: nat)
    requires id !in w.processes && c < |w.records.contents|
    requires w.records.contents[c].kind == Reel && !w.records.contents[c].deleted
    requires forall j :: j in w.processes && w.processes[j].Transcoding? ==> w.processes[j].c != c
    ensures Enabled(w, StartTranscode(id, c))
    ensures var started := Do(w, StartTranscode(id, c));
            && Enabled(started, MarkProcessing(id))
            && var marked := Do(started, MarkProcessing(id));
            && Enabled(marked, TranscodeSucceeds(id))
            && var r, ready := w.records, w.records.contents[c].(processing := Ready);
            Do(marked, TranscodeSucceeds(id))
              == Put(World(Records(r.contents[c := ready], r.queue, r.log), w.processes), id,
                     Transcoding(c, ready, Stored))
  {
    var reel := w.records.contents[c];
    var started := Transcoding(c, reel, Fetched);
    var marked := Transcoding(c, reel.(processing := Processing), Marked);
    assert Do(w, StartTranscode(id, c)) == Put(w, id, started);
    PutAgain(w, id, started, marked);
    PutAgain(w, id, marked, Transcoding(c, reel.(processing := Ready), Stored));
  }

  /** A stored reel is looked up in the queue, and added if it is not there. */
  lemma QueuedOnce(v: World, id: nat, c: nat, ready: Content)
    requires id !in v.processes
    ensures var stored := Put(v, id, Transcoding(c, ready, Stored));
            && Enabled(stored, LookForRow(id))
            && var w' := Do(stored, LookForRow(id));
            && w'.records == v.records
            && if exists q :: 0 <= q < |v.records.queue| && v.records.queue[q].content == c
               then w' == v
               else && Enabled(w', QueueReel(id))
                    && Do(w', QueueReel(id))
                         == v.(records := v.records.(queue := v.records.queue + [QueueRow(c, Pending)]))
  {
    var stored, waiting := Transcoding(c, ready, Stored), Transcoding(c, ready, MustQueue);
    PutAgain(v, id, stored, waiting);
    PutAgain(v, id, waiting, waiting);
    PutAgain(v.(records := v.records.(queue := v.records.queue + [QueueRow(c, Pending)])), id, waiting, waiting);
  }

  /** The world in which nothing changed but that reel `c` has become ready. */
  function WithReady(w: World, c: nat): World
    requires c < |w.records.contents|
  {
    var r := w.records;
    World(Records(r.contents[c := r.contents[c].(processing := Ready)], r.queue, r.log), w.processes)
  }

  /** A successful transcode with nothing in between: the reel is ready, and in the queue exactly once more if it was
    * not there.
    */
  lemma UndisturbedTranscode(w: World, id: nat, c: nat) returns (w': World)
    requires id !in w.processes && c < |w.records.contents|
    requires w.records.contents[c].kind == Reel && !w.records.contents[c].deleted
    requires forall j :: j in w.processes && w.processes[j].Transcoding? ==> w.processes[j].c != c
    ensures Leads(w, [StartTranscode(id, c), MarkProcessing(id), TranscodeSucceeds(id), LookForRow(id)], w')
    ensures if exists q :: 0 <= q < |w.records.queue| && w.records.queue[q].content == c
            then w' == WithReady(w, c)
            else && Enabled(w', QueueReel(id)) && w'.records == WithReady(w, c).records
                 && var w'' := Do(w', QueueReel(id));
                 && w''.processes == w.processes && w''.records.contents == WithReady(w, c).records.contents
                 && w''.records.queue == w.records.queue + [QueueRow(c, Pending)] && w''.records.log == w.records.log
  {
    TranscodeUpToStore(w, id, c);
    QueuedOnce(WithReady(w, c), id, c, WithReady(w, c).records.contents[c]);
    var stored := Do(Do(Do(w, StartTranscode(id, c)), MarkProcessing(id)), TranscodeSucceeds(id));
    w' := Do(stored, LookForRow(id));
    FourSteps(w, StartTranscode(id, c), MarkProcessing(id), TranscodeSucceeds(id), LookForRow(id), w');
  }

  /** What can begin: editing a live row, transcoding a live reel that is not being transcoded, and deciding about a row
    * of the queue, a rejection with a reason.
    */
  lemma BeginsInFields(w: World, id: nat, c: nat, q: nat, reviewer: int, v: Verdict)
    ensures Enabled(w, LoadForEdit(id, c)) <==>
              id !in w.processes && c < |w.records.contents| && !w.records.contents[c].deleted
    ensures Enabled(w, StartTranscode(id, c)) <==>
              && id !in w.processes && c < |w.records.contents| && !w.records.contents[c].deleted
              && w.records.contents[c].kind == Reel
              && forall j :: j in w.processes && w.processes[j].Transcoding? ==> w.processes[j].c != c
    ensures Enabled(w, Request(id, q, reviewer, v)) <==>
              id !in w.processes && q < |w.records.queue| && (v.Reject? ==> Strip(v.reason) != "")
  {
  }

  /** A transcode that fails, before or after the finished reel was saved, leaves the reel failed. */
  lemma FailureInFields(w: World, id: nat)
    requires WorldOk(w) && id in w.processes && w.processes[id].Transcoding?
    requires w.processes[id].phase == Marked || w.processes[id].phase == Stored
    ensures Enabled(w, TranscodeFails(id))
    ensures var c, r, r' := w.processes[id].c, w.records, Do(w, TranscodeFails(id)).records;
            && c < |r.contents| && r'.contents == r.contents[c := r.contents[c].(processing := Failed)]
            && r'.queue == r.queue && r'.log == r.log
  {
    assert ProcessOk(w.records, w.processes[id]);
  }

  /** New content is not published, and is put into the queue by its creation unless it is a reel. */
  lemma CreationInFields(w: World, id: nat, kind: Kind, caption: string)
    requires WorldOk(w) && id !in w.processes
    ensures Enabled(w, Create(id, kind, caption))
    ensures var w', c := Do(w, Create(id, kind, caption)), |w.records.contents|;
            && w'.records.contents == w.records.contents + [Content(kind, PendingReview, Uploaded, false, caption)]
            && w'.records.queue == w.records.queue && w'.records.log == w.records.log
            && if kind == Reel then w'.processes == w.processes
               else && Enabled(w', QueueNew(id)) && Do(w', QueueNew(id)).processes == w.processes
                    && Do(w', QueueNew(id)).records
                         == w'.records.(queue := w.records.queue + [QueueRow(c, Pending)])
  {
    assert w.processes == w.processes - {id};
  }
}
