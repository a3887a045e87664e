/** Creations, transcodes, edits, deletions and decisions running at the same time. */
module ModerationRuns {
  import opened Wrappers
  import opened Publication
  import opened Moderation

  datatype TranscodePhase = Fetched | Marked | Stored | MustQueue

  datatype DecisionPhase = Waiting | Holding | Read(copy: Content)

  /** What is under way.  Editors and transcodes work on a copy loaded earlier, and save all of it. */
  datatype Process =
    | Creating(c: nat)
    | Editing(c: nat, copy: Content)
    | Transcoding(c: nat, copy: Content, phase: TranscodePhase)
    | Deciding(q: nat, reviewer: int, verdict: Verdict, at: DecisionPhase)

  datatype World = World(records: Records, processes: map<nat, Process>)

  const EMPTY: World := World(Records([], [], []), map[])

  datatype Step =
    | Create(id: nat, kind: Kind, caption: string)
    | QueueNew(id: nat)
    | LoadForEdit(id: nat, c: nat)
    | SaveEdit(id: nat, caption: string)
    | SaveDeletion(id: nat)
    | StartTranscode(id: nat, c: nat)
    | MarkProcessing(id: nat)
    | TranscodeFails(id: nat)
    | TranscodeSucceeds(id: nat)
    | LookForRow(id: nat)
    | QueueReel(id: nat)
    | Request(id: nat, q: nat, reviewer: int, verdict: Verdict)
    | LockRow(id: nat)
    | ReadContent(id: nat)
    | CommitDecision(id: nat)
    | Abort(id: nat)

  predicate HoldsRow(p: Process, q: nat) {
    p.Deciding? && p.q == q && !p.at.Waiting?
  }

  /** Nobody else holds the lock on queue row `q`. */
  predicate RowFree(w: World, q: nat) {
    forall id :: id in w.processes ==> !HoldsRow(w.processes[id], q)
  }

  /** Two transcodes of one reel do not overlap. */
  predicate NotTranscoding(w: World, c: nat) {
    forall id :: id in w.processes && w.processes[id].Transcoding? ==> w.processes[id].c != c
  }

  predicate Live(w: World, c: nat) {
    c < |w.records.contents| && !w.records.contents[c].deleted
  }

  predicate TranscodingAt(w: World, id: nat, phase: TranscodePhase) {
    id in w.processes && w.processes[id].Transcoding? && w.processes[id].phase == phase
  }

  predicate Enabled(w: World, step: Step) {
    match step
    case Create(id, _, _) => id !in w.processes
    case QueueNew(id) => id in w.processes && w.processes[id].Creating?
    case LoadForEdit(id, c) => id !in w.processes && Live(w, c)
    case SaveEdit(id, _) => id in w.processes && w.processes[id].Editing? && w.processes[id].c < |w.records.contents|
    case SaveDeletion(id) => id in w.processes && w.processes[id].Editing? && w.processes[id].c < |w.records.contents|
    case StartTranscode(id, c) =>
      id !in w.processes && Live(w, c) && w.records.contents[c].kind.Reel? && NotTranscoding(w, c)
    case MarkProcessing(id) => TranscodingAt(w, id, Fetched) && w.processes[id].c < |w.records.contents|
    case TranscodeFails(id) =>
      (TranscodingAt(w, id, Marked) || TranscodingAt(w, id, Stored)) && w.processes[id].c < |w.records.contents|
    case TranscodeSucceeds(id) => TranscodingAt(w, id, Marked) && w.processes[id].c < |w.records.contents|
    case LookForRow(id) => TranscodingAt(w, id, Stored)
    case QueueReel(id) => TranscodingAt(w, id, MustQueue)
    case Request(id, q, _, verdict) => id !in w.processes && q < |w.records.queue| && Acceptable(verdict)
    case LockRow(id) =>
      id in w.processes && w.processes[id].Deciding? && w.processes[id].at.Waiting? && RowFree(w, w.processes[id].q)
      && w.processes[id].q < |w.records.queue|
    case ReadContent(id) =>
      id in w.processes && w.processes[id].Deciding? && w.processes[id].at.Holding?
      && w.processes[id].q < |w.records.queue| && w.records.queue[w.processes[id].q].content < |w.records.contents|
    case CommitDecision(id) =>
      id in w.processes && w.processes[id].Deciding? && w.processes[id].at.Read?
      && w.processes[id].q < |w.records.queue| && w.records.queue[w.processes[id].q].content < |w.records.contents|
    case Abort(id) => id in w.processes
  }

  function Ended(w: World, id: nat): World {
    w.(processes := w.processes - {id})
  }

  function Put(w: World, id: nat, p: Process): World {
    w.(processes := w.processes[id := p])
  }

  function Saved(r: Records, c: nat, content: Content): Records
    requires c < |r.contents|
  {
    r.(contents := r.contents[c := content])
  }

  function Do(w: World, step: Step): World
    requires Enabled(w, step)
  {
    var r := w.records;
    match step
    case Create(id, kind, caption) =>
      var saved := w.(records := r.(contents := r.contents + [Content(kind, PendingReview, Uploaded, false, caption)]));
      if AutoEnqueue(kind) then Put(saved, id, Creating(|r.contents|)) else saved
    case QueueNew(id) => Ended(w.(records := Enqueued(r, w.processes[id].c)), id)
    case LoadForEdit(id, c) => Put(w, id, Editing(c, r.contents[c]))
    case SaveEdit(id, caption) =>
      var p := w.processes[id];
      Ended(w.(records := Saved(r, p.c, p.copy.(caption := caption))), id)
    case SaveDeletion(id) =>
      var p := w.processes[id];
      Ended(w.(records := Saved(r, p.c, p.copy.(deleted := true))), id)
    case StartTranscode(id, c) => Put(w, id, Transcoding(c, r.contents[c], Fetched))
    case MarkProcessing(id) =>
      var p := w.processes[id];
      Put(w.(records := Saved(r, p.c, r.contents[p.c].(processing := Processing))), id,
          p.(copy := p.copy.(processing := Processing), phase := Marked))
    case TranscodeFails(id) =>
      var p := w.processes[id];
      Ended(w.(records := Saved(r, p.c, r.contents[p.c].(processing := Failed))), id)
    case TranscodeSucceeds(id) =>
      var p := w.processes[id];
      Put(w.(records := Saved(r, p.c, p.copy.(processing := Ready))), id,
          p.(copy := p.copy.(processing := Ready), phase := Stored))
    case LookForRow(id) =>
      var p := w.processes[id];
      if Queued(r, p.c) then Ended(w, id) else Put(w, id, p.(phase := MustQueue))
    case QueueReel(id) => Ended(w.(records := Enqueued(r, w.processes[id].c)), id)
    case Request(id, q, reviewer, verdict) => Put(w, id, Deciding(q, reviewer, verdict, Waiting))
    case LockRow(id) =>
      var p := w.processes[id];
      if !r.queue[p.q].status.Pending? then Ended(w, id) else Put(w, id, p.(at := Holding))
    case ReadContent(id) =>
      var p := w.processes[id];
      Put(w, id, p.(at := Read(r.contents[r.queue[p.q].content])))
    case CommitDecision(id) =>
      var p := w.processes[id];
      Ended(w.(records := Decided(r, p.q, p.at.copy, p.reviewer, p.verdict)), id)
    case Abort(id) => Ended(w, id)
  }

  // ---- The invariant

  ghost predicate QueueOk(r: Records) {
    && (forall q :: 0 <= q < |r.queue| ==> r.queue[q].content < |r.contents|)
    && (forall p, q :: 0 <= p < q < |r.queue| ==> r.queue[p].content != r.queue[q].content)
  }

  /** Log row `l` records the decision of its queue row. */
  ghost predicate LogRowOk(r: Records, l: nat)
    requires l < |r.log|
  {
    && r.log[l].row < |r.queue|
    && r.queue[r.log[l].row].status == (if r.log[l].approved then WasApproved else WasRejected)
    && (r.log[l].reason == "" <==> r.log[l].approved)
  }

  ghost predicate Logged(r: Records, q: nat) {
    exists l :: 0 <= l < |r.log| && r.log[l].row == q
  }

  ghost predicate LogOk(r: Records) {
    && (forall l :: 0 <= l < |r.log| ==> LogRowOk(r, l))
    && (forall l, m :: 0 <= l < m < |r.log| ==> r.log[l].row != r.log[m].row)
    && (forall q :: 0 <= q < |r.queue| && !r.queue[q].status.Pending? ==> Logged(r, q))
  }

  ghost predicate HasRow(r: Records, c: nat, status: QueueStatus) {
    exists q :: 0 <= q < |r.queue| && r.queue[q] == QueueRow(c, status)
  }

  /** A copy of content `c`, stored or loaded, is published or rejected only after that decision. */
  ghost predicate CopyOk(r: Records, c: nat, copy: Content) {
    && c < |r.contents| && copy.kind == r.contents[c].kind
    && (copy.status.Published? ==> HasRow(r, c, WasApproved))
    && (copy.status.Rejected? ==> HasRow(r, c, WasRejected))
  }

  ghost predicate ContentsOk(r: Records) {
    forall c :: 0 <= c < |r.contents| ==> CopyOk(r, c, r.contents[c])
  }

  ghost predicate ProcessOk(r: Records, p: Process) {
    match p
    case Creating(c) => c < |r.contents| && AutoEnqueue(r.contents[c].kind) && !Queued(r, c)
    case Editing(c, copy) => CopyOk(r, c, copy)
    case Transcoding(c, copy, phase) => CopyOk(r, c, copy) && copy.kind.Reel? && (phase.MustQueue? ==> !Queued(r, c))
    case Deciding(q, _, verdict, at) =>
      && q < |r.queue| && r.queue[q].content < |r.contents| && Acceptable(verdict)
      && (!at.Waiting? ==> r.queue[q].status.Pending?)
      && (at.Read? ==> CopyOk(r, r.queue[q].content, at.copy))
  }

  /** Two processes never create a queue row for the same content, nor hold the same queue row. */
  ghost predicate Compatible(p: Process, q: Process) {
    && (p.Creating? && q.Creating? ==> p.c != q.c)
    && (p.Transcoding? && q.Transcoding? ==> p.c != q.c)
    && (p.Deciding? && q.Deciding? && !p.at.Waiting? && !q.at.Waiting? ==> p.q != q.q)
  }

  ghost predicate RecordsOk(r: Records) {
    QueueOk(r) && LogOk(r) && ContentsOk(r)
  }

  ghost predicate WorldOk(w: World) {
    && RecordsOk(w.records)
    && (forall id :: id in w.processes ==> ProcessOk(w.records, w.processes[id]))
    && (forall i, j :: i in w.processes && j in w.processes && i != j ==> Compatible(w.processes[i], w.processes[j]))
  }

  // ---- Changes of the records that leave processes alone

  lemma PutKeepsWorldOk(w: World, id: nat, p: Process)
    requires WorldOk(w) && ProcessOk(w.records, p)
    requires forall j :: j in w.processes && j != id ==> Compatible(p, w.processes[j])
    ensures WorldOk(Put(w, id, p))
  {
    assert forall j :: j in w.processes && j != id ==> Compatible(w.processes[j], p);
  }

  lemma EndKeepsWorldOk(w: World, id: nat)
    requires WorldOk(w)
    ensures WorldOk(Ended(w, id))
  {
  }

  /** Saving an honest copy of one content row. */
  lemma SaveKeepsWorldOk(w: World, c: nat, content: Content)
    requires WorldOk(w) && CopyOk(w.records, c, content)
    ensures WorldOk(w.(records := Saved(w.records, c, content)))
  {
    var r, r' := w.records, Saved(w.records, c, content);
    assert forall d, s :: HasRow(r', d, s) == HasRow(r, d, s);
    assert forall d :: Queued(r', d) == Queued(r, d);
    assert forall q :: Logged(r', q) == Logged(r, q);
    forall l | 0 <= l < |r.log|
      ensures LogRowOk(r', l)
    {
      assert LogRowOk(r, l);
    }
    forall d | 0 <= d < |r.contents|
      ensures CopyOk(r', d, r'.contents[d])
    {
      assert CopyOk(r, d, r.contents[d]);
    }
    forall id | id in w.processes
      ensures ProcessOk(r', w.processes[id])
    {
      assert ProcessOk(r, w.processes[id]);
    }
  }

  /** A new content row. */
  lemma CreateKeepsWorldOk(w: World, content: Content)
    requires WorldOk(w) && content.status.PendingReview?
    ensures WorldOk(w.(records := w.records.(contents := w.records.contents + [content])))
    ensures !Queued(w.records, |w.records.contents|)
  {
    var r, r' := w.records, w.records.(contents := w.records.contents + [content]);
    assert forall d, s :: HasRow(r', d, s) == HasRow(r, d, s);
    assert forall d :: Queued(r', d) == Queued(r, d);
    assert forall q :: Logged(r', q) == Logged(r, q);
    forall l | 0 <= l < |r.log|
      ensures LogRowOk(r', l)
    {
      assert LogRowOk(r, l);
    }
    forall d | 0 <= d < |r'.contents|
      ensures CopyOk(r', d, r'.contents[d])
    {
      assert d < |r.contents| ==> CopyOk(r, d, r.contents[d]);
    }
    forall id | id in w.processes
      ensures ProcessOk(r', w.processes[id])
    {
      assert ProcessOk(r, w.processes[id]);
    }
  }

  /** Queue rows are only added to. */
  lemma EnqueueKeepsRows(r: Records, c: nat)
    ensures var r' := Enqueued(r, c);
            && (forall d, s :: HasRow(r, d, s) ==> HasRow(r', d, s))
            && (forall d :: Queued(r', d) <==> Queued(r, d) || d == c)
            && (forall q :: Logged(r', q) == Logged(r, q))
  {
    var r' := Enqueued(r, c);
    assert r'.queue[|r.queue|] == QueueRow(c, Pending);
    assert forall q :: 0 <= q < |r.queue| ==> r'.queue[q] == r.queue[q];
  }

  lemma EnqueueKeepsRecordsOk(r: Records, c: nat)
    requires RecordsOk(r) && c < |r.contents| && !Queued(r, c)
    ensures RecordsOk(Enqueued(r, c))
  {
    var r' := Enqueued(r, c);
    EnqueueKeepsRows(r, c);
    forall l | 0 <= l < |r.log|
      ensures LogRowOk(r', l)
    {
      assert LogRowOk(r, l);
    }
    forall d | 0 <= d < |r.contents|
      ensures CopyOk(r', d, r'.contents[d])
    {
      assert CopyOk(r, d, r.contents[d]);
    }
  }

  /** Queueing content that no other process is about to queue. */
  lemma EnqueueKeepsWorldOk(w: World, id: nat, c: nat)
    requires WorldOk(w) && id in w.processes && c < |w.records.contents| && !Queued(w.records, c)
    requires forall j :: j in w.processes && j != id ==>
               w.processes[j] != Creating(c)
               && !(w.processes[j].Transcoding? && w.processes[j].phase.MustQueue? && w.processes[j].c == c)
    ensures WorldOk(Ended(w.(records := Enqueued(w.records, c)), id))
  {
    var r, r' := w.records, Enqueued(w.records, c);
    EnqueueKeepsRecordsOk(r, c);
    EnqueueKeepsRows(r, c);
    forall j | j in w.processes && j != id
      ensures ProcessOk(r', w.processes[j])
    {
      assert ProcessOk(r, w.processes[j]);
    }
  }

  lemma QueueNewKeepsWorldOk(w: World, id: nat)
    requires WorldOk(w) && Enabled(w, QueueNew(id))
    ensures WorldOk(Do(w, QueueNew(id)))
  {
    var c := w.processes[id].c;
    assert ProcessOk(w.records, w.processes[id]);
    forall j | j in w.processes && j != id
      ensures !(w.processes[j] == Creating(c)) && !(w.processes[j].Transcoding? && w.processes[j].c == c)
    {
      assert ProcessOk(w.records, w.processes[j]) && Compatible(w.processes[id], w.processes[j]);
    }
    EnqueueKeepsWorldOk(w, id, c);
  }

  lemma QueueReelKeepsWorldOk(w: World, id: nat)
    requires WorldOk(w) && Enabled(w, QueueReel(id))
    ensures WorldOk(Do(w, QueueReel(id)))
  {
    var c := w.processes[id].c;
    assert ProcessOk(w.records, w.processes[id]);
    forall j | j in w.processes && j != id
      ensures !(w.processes[j] == Creating(c)) && !(w.processes[j].Transcoding? && w.processes[j].c == c)
    {
      assert ProcessOk(w.records, w.processes[j]) && Compatible(w.processes[id], w.processes[j]);
    }
    EnqueueKeepsWorldOk(w, id, c);
  }

  // ---- Decisions

  /** Deciding a pending row keeps every earlier decision. */
  lemma DecideKeepsRows(r: Records, q: nat, copy: Content, reviewer: int, v: Verdict)
    requires QueueOk(r) && q < |r.queue| && r.queue[q].status.Pending?
    ensures var r' := Decided(r, q, copy, reviewer, v);
            && (forall d, s: QueueStatus :: !s.Pending? && HasRow(r, d, s) ==> HasRow(r', d, s))
            && HasRow(r', r.queue[q].content, QueueStatusAfter(v))
            && (forall d :: Queued(r', d) == Queued(r, d))
            && (forall p: nat :: p < |r.queue| && p != q ==> r'.queue[p] == r.queue[p])
  {
    var r' := Decided(r, q, copy, reviewer, v);
    forall d, s: QueueStatus | !s.Pending? && HasRow(r, d, s)
      ensures HasRow(r', d, s)
    {
      var p :| 0 <= p < |r.queue| && r.queue[p] == QueueRow(d, s);
      assert r'.queue[p] == QueueRow(d, s);
    }
    assert r'.queue[q] == QueueRow(r.queue[q].content, QueueStatusAfter(v));
    forall d
      ensures Queued(r', d) == Queued(r, d)
    {
      assert forall p :: 0 <= p < |r.queue| ==> r'.queue[p].content == r.queue[p].content;
    }
  }

  lemma DecideKeepsLog(r: Records, q: nat, copy: Content, reviewer: int, v: Verdict)
    requires QueueOk(r) && LogOk(r) && q < |r.queue| && r.queue[q].status.Pending? && Acceptable(v)
    ensures LogOk(Decided(r, q, copy, reviewer, v))
  {
    var r' := Decided(r, q, copy, reviewer, v);
    forall l | 0 <= l < |r'.log|
      ensures LogRowOk(r', l) && (l < |r.log| ==> r.log[l].row != q)
    {
      assert l < |r.log| ==> LogRowOk(r, l);
    }
    forall p | 0 <= p < |r'.queue| && !r'.queue[p].status.Pending?
      ensures Logged(r', p)
    {
      if p == q {
        assert r'.log[|r.log|].row == q;
      } else {
        assert Logged(r, p);
        var l :| 0 <= l < |r.log| && r.log[l].row == p;
        assert r'.log[l].row == p;
      }
    }
  }

  lemma DecideKeepsRecordsOk(r: Records, q: nat, copy: Content, reviewer: int, v: Verdict)
    requires RecordsOk(r) && q < |r.queue| && r.queue[q].status.Pending? && Acceptable(v)
    requires CopyOk(r, r.queue[q].content, copy)
    ensures RecordsOk(Decided(r, q, copy, reviewer, v))
  {
    var r' := Decided(r, q, copy, reviewer, v);
    DecideKeepsRows(r, q, copy, reviewer, v);
    DecideKeepsLog(r, q, copy, reviewer, v);
    forall d | 0 <= d < |r.contents|
      ensures CopyOk(r', d, r'.contents[d])
    {
      assert CopyOk(r, d, r.contents[d]);
    }
  }

  lemma CommitKeepsWorldOk(w: World, id: nat)
    requires WorldOk(w) && Enabled(w, CommitDecision(id))
    ensures WorldOk(Do(w, CommitDecision(id)))
  {
    var r, p := w.records, w.processes[id];
    assert ProcessOk(r, p);
    var r' := Decided(r, p.q, p.at.copy, p.reviewer, p.verdict);
    DecideKeepsRows(r, p.q, p.at.copy, p.reviewer, p.verdict);
    DecideKeepsRecordsOk(r, p.q, p.at.copy, p.reviewer, p.verdict);
    forall j | j in w.processes && j != id
      ensures ProcessOk(r', w.processes[j])
    {
      assert ProcessOk(r, w.processes[j]) && Compatible(p, w.processes[j]);
    }
  }

  lemma LockKeepsWorldOk(w: World, id: nat)
    requires WorldOk(w) && Enabled(w, LockRow(id))
    ensures WorldOk(Do(w, LockRow(id)))
  {
    var p := w.processes[id];
    assert ProcessOk(w.records, p);
    if w.records.queue[p.q].status.Pending? {
      forall j | j in w.processes && j != id
        ensures Compatible(p.(at := Holding), w.processes[j])
      {
        assert !HoldsRow(w.processes[j], p.q);
      }
      PutKeepsWorldOk(w, id, p.(at := Holding));
    }
  }

  lemma ReadKeepsWorldOk(w: World, id: nat)
    requires WorldOk(w) && Enabled(w, ReadContent(id))
    ensures WorldOk(Do(w, ReadContent(id)))
  {
    var p := w.processes[id];
    var c := w.records.queue[p.q].content;
    assert ProcessOk(w.records, p) && CopyOk(w.records, c, w.records.contents[c]);
    assert forall j :: j in w.processes && j != id ==> Compatible(p, w.processes[j]);
    PutKeepsWorldOk(w, id, p.(at := Read(w.records.contents[c])));
  }

  // ---- Transcodes

  lemma TranscodeKeepsWorldOk(w: World, id: nat, step: Step)
    requires WorldOk(w) && Enabled(w, step)
    requires step in {MarkProcessing(id), TranscodeFails(id), TranscodeSucceeds(id), LookForRow(id)}
    ensures WorldOk(Do(w, step))
  {
    var r, p := w.records, w.processes[id];
    assert ProcessOk(r, p) && CopyOk(r, p.c, r.contents[p.c]);
    match step {
      case MarkProcessing(_) =>
        var content := r.contents[p.c].(processing := Processing);
        SaveKeepsWorldOk(w, p.c, content);
        ReplaceTranscode(w.(records := Saved(r, p.c, content)), id,
                         p.(copy := p.copy.(processing := Processing), phase := Marked));
      case TranscodeFails(_) =>
        SaveKeepsWorldOk(w, p.c, r.contents[p.c].(processing := Failed));
      case TranscodeSucceeds(_) =>
        var content := p.copy.(processing := Ready);
        SaveKeepsWorldOk(w, p.c, content);
        ReplaceTranscode(w.(records := Saved(r, p.c, content)), id, p.(copy := content, phase := Stored));
      case LookForRow(_) =>
        if !Queued(r, p.c) {
          ReplaceTranscode(w, id, p.(phase := MustQueue));
        }
    }
  }

  lemma ReplaceTranscode(w: World, id: nat, p: Process)
    requires WorldOk(w) && id in w.processes && w.processes[id].Transcoding? && p.Transcoding?
    requires p.c == w.processes[id].c && p.copy == w.processes[id].copy.(processing := p.copy.processing)
    requires p.phase.MustQueue? ==> !Queued(w.records, p.c)
    ensures WorldOk(Put(w, id, p))
  {
    assert ProcessOk(w.records, w.processes[id]);
    forall j | j in w.processes && j != id
      ensures Compatible(p, w.processes[j])
    {
      assert Compatible(w.processes[id], w.processes[j]);
    }
    PutKeepsWorldOk(w, id, p);
  }

  // ---- Every step

  lemma CreateStepKeepsWorldOk(w: World, id: nat, kind: Kind, caption: string)
    requires WorldOk(w) && Enabled(w, Create(id, kind, caption))
    ensures WorldOk(Do(w, Create(id, kind, caption)))
  {
    var content := Content(kind, PendingReview, Uploaded, false, caption);
    var saved := w.(records := w.records.(contents := w.records.contents + [content]));
    CreateKeepsWorldOk(w, content);
    if AutoEnqueue(kind) {
      forall j | j in w.processes
        ensures Compatible(Creating(|w.records.contents|), w.processes[j])
      {
        assert ProcessOk(w.records, w.processes[j]);
      }
      PutKeepsWorldOk(saved, id, Creating(|w.records.contents|));
    }
  }

  lemma EditKeepsWorldOk(w: World, id: nat, step: Step)
    requires WorldOk(w) && Enabled(w, step)
    requires (step.LoadForEdit? || step.SaveEdit? || step.SaveDeletion?) && step.id == id
    ensures WorldOk(Do(w, step))
  {
    match step {
      case LoadForEdit(_, c) =>
        assert CopyOk(w.records, c, w.records.contents[c]);
        PutKeepsWorldOk(w, id, Editing(c, w.records.contents[c]));
      case SaveEdit(_, caption) =>
        assert ProcessOk(w.records, w.processes[id]);
        SaveKeepsWorldOk(w, w.processes[id].c, w.processes[id].copy.(caption := caption));
      case SaveDeletion(_) =>
        assert ProcessOk(w.records, w.processes[id]);
        SaveKeepsWorldOk(w, w.processes[id].c, w.processes[id].copy.(deleted := true));
    }
  }

  lemma StartKeepsWorldOk(w: World, id: nat, c: nat)
    requires WorldOk(w) && Enabled(w, StartTranscode(id, c))
    ensures WorldOk(Do(w, StartTranscode(id, c)))
  {
    assert CopyOk(w.records, c, w.records.contents[c]);
    PutKeepsWorldOk(w, id, Transcoding(c, w.records.contents[c], Fetched));
  }

  lemma RequestKeepsWorldOk(w: World, id: nat, q: nat, reviewer: int, v: Verdict)
    requires WorldOk(w) && Enabled(w, Request(id, q, reviewer, v))
    ensures WorldOk(Do(w, Request(id, q, reviewer, v)))
  {
    PutKeepsWorldOk(w, id, Deciding(q, reviewer, v, Waiting));
  }

  lemma {:induction false} StepKeepsWorldOk(w: World, step: Step)
    requires WorldOk(w) && Enabled(w, step)
    ensures WorldOk(Do(w, step))
  {
    match step {
      case Create(id, kind, caption) => CreateStepKeepsWorldOk(w, id, kind, caption);
      case QueueNew(id) => QueueNewKeepsWorldOk(w, id);
      case LoadForEdit(id, _) => EditKeepsWorldOk(w, id, step);
      case SaveEdit(id, _) => EditKeepsWorldOk(w, id, step);
      case SaveDeletion(id) => EditKeepsWorldOk(w, id, step);
      case StartTranscode(id, c) => StartKeepsWorldOk(w, id, c);
      case MarkProcessing(id) => TranscodeKeepsWorldOk(w, id, step);
      case TranscodeFails(id) => TranscodeKeepsWorldOk(w, id, step);
      case TranscodeSucceeds(id) => TranscodeKeepsWorldOk(w, id, step);
      case LookForRow(id) => TranscodeKeepsWorldOk(w, id, step);
      case QueueReel(id) => QueueReelKeepsWorldOk(w, id);
      case Request(id, q, reviewer, v) => RequestKeepsWorldOk(w, id, q, reviewer, v);
      case LockRow(id) => LockKeepsWorldOk(w, id);
      case ReadContent(id) => ReadKeepsWorldOk(w, id);
      case CommitDecision(id) => CommitKeepsWorldOk(w, id);
      case Abort(id) => EndKeepsWorldOk(w, id);
    }
  }

  // ---- Runs

  /** The world after a run, or None if some step was not enabled. */
  function Run(steps: seq<Step>): Option<World> {
    if steps == [] then Some(EMPTY)
    else
      match Run(steps[..|steps| - 1])
      case None => None
      case Some(w) => if Enabled(w, steps[|steps| - 1]) then Some(Do(w, steps[|steps| - 1])) else None
  }

  lemma {:induction false} RunKeepsWorldOk(steps: seq<Step>)
    requires Run(steps).Some?
    ensures WorldOk(Run(steps).value)
  {
    if steps != [] {
      RunKeepsWorldOk(steps[..|steps| - 1]);
      StepKeepsWorldOk(Run(steps[..|steps| - 1]).value, steps[|steps| - 1]);
    }
  }

  /** Log row `l` is a decision about content `c`. */
  predicate IsAbout(r: Records, l: nat, c: nat) {
    l < |r.log| && r.log[l].row < |r.queue| && r.queue[r.log[l].row].content == c
  }

  ghost predicate OnlyDecisionIs(r: Records, c: nat, l: nat) {
    IsAbout(r, l, c) && forall m: nat :: IsAbout(r, m, c) ==> m == l
  }

  /** At most one decision is ever logged about any content. */
  lemma DecidedOnce(r: Records, c: nat, l: nat, m: nat)
    requires QueueOk(r) && LogOk(r) && IsAbout(r, l, c) && IsAbout(r, m, c)
    ensures l == m
  {
    assert r.log[l].row == r.log[m].row;
  }

  lemma DecidedRowIsLogged(r: Records, c: nat, status: QueueStatus) returns (l: nat)
    requires RecordsOk(r) && HasRow(r, c, status) && !status.Pending?
    ensures OnlyDecisionIs(r, c, l) && r.log[l].approved == status.WasApproved?
  {
    var q :| 0 <= q < |r.queue| && r.queue[q] == QueueRow(c, status);
    assert Logged(r, q);
    l :| 0 <= l < |r.log| && r.log[l].row == q;
    assert LogRowOk(r, l);
    forall m: nat | IsAbout(r, m, c)
      ensures m == l
    {
      DecidedOnce(r, c, l, m);
    }
  }

  /** Whatever ran in between, with whatever stale copies saved: content whose status is PUBLISHED, and so all the
    * public sees, has exactly one logged decision, and it is an approval.
    */
  lemma {:induction false} VisibleMeansApprovedOnce(steps: seq<Step>, c: nat) returns (l: nat)
    requires Run(steps).Some? && c < |Run(steps).value.records.contents|
    requires Run(steps).value.records.contents[c].status == Published
    ensures OnlyDecisionIs(Run(steps).value.records, c, l) && Run(steps).value.records.log[l].approved
  {
    RunKeepsWorldOk(steps);
    var r := Run(steps).value.records;
    assert CopyOk(r, c, r.contents[c]);
    l := DecidedRowIsLogged(r, c, WasApproved);
  }

  /** Content shown to its owner as rejected has exactly one logged decision, a rejection with a reason. */
  lemma RejectedMeansRejectedOnce(steps: seq<Step>, c: nat) returns (l: nat)
    requires Run(steps).Some? && c < |Run(steps).value.records.contents|
    requires Run(steps).value.records.contents[c].status.Rejected?
    ensures OnlyDecisionIs(Run(steps).value.records, c, l)
    ensures !Run(steps).value.records.log[l].approved && Run(steps).value.records.log[l].reason != ""
  {
    RunKeepsWorldOk(steps);
    var r := Run(steps).value.records;
    assert CopyOk(r, c, r.contents[c]);
    l := DecidedRowIsLogged(r, c, WasRejected);
    assert LogRowOk(r, l);
  }

  /** A decided queue row is never decided again and never changes; logged decisions stay as they are. */
  lemma StepKeepsDecisions(w: World, step: Step)
    requires WorldOk(w) && Enabled(w, step)
    ensures var r, r' := w.records, Do(w, step).records;
            && |r.queue| <= |r'.queue| && r.log <= r'.log
            && (forall q :: 0 <= q < |r.queue| && !r.queue[q].status.Pending? ==> r'.queue[q] == r.queue[q])
            && (r'.log != r.log ==> step.CommitDecision? && |r'.log| == |r.log| + 1
                                    && r.log + [r'.log[|r.log|]] == r'.log && !Logged(r, r'.log[|r.log|].row))
  {
    if step.CommitDecision? {
      var r, p := w.records, w.processes[step.id];
      assert ProcessOk(r, p);
      forall l | 0 <= l < |r.log|
        ensures r.log[l].row != p.q
      {
        assert LogRowOk(r, l);
      }
    }
  }

  lemma {:induction false} DecisionsAreFinal(steps: seq<Step>, n: nat)
    requires n <= |steps| && Run(steps).Some?
    ensures Run(steps[..n]).Some?
    ensures var r, r' := Run(steps[..n]).value.records, Run(steps).value.records;
            && |r.queue| <= |r'.queue| && r.log <= r'.log
            && forall q :: 0 <= q < |r.queue| && !r.queue[q].status.Pending? ==> r'.queue[q] == r.queue[q]
  {
    if n < |steps| {
      var before := steps[..|steps| - 1];
      assert before[..n] == steps[..n];
      DecisionsAreFinal(before, n);
      RunKeepsWorldOk(before);
      StepKeepsDecisions(Run(before).value, steps[|steps| - 1]);
    } else {
      assert steps[..n] == steps;
    }
  }

  lemma PutAgain(w: World, id: nat, p: Process, p': Process)
    requires id !in w.processes
    ensures Put(Put(w, id, p), id, p') == Put(w, id, p') && Ended(Put(w, id, p), id) == w
  {
    assert (w.processes[id := p])[id := p'] == w.processes[id := p'];
    assert w.processes[id := p] - {id} == w.processes;
  }

  /** Asking for a decision on a row nobody holds: the lock is taken if the row is pending, and otherwise the
    * attempt leaves everything as it was.
    */
  lemma {:induction false} UndisturbedLock(w: World, id: nat, q: nat, reviewer: int, v: Verdict)
    requires WorldOk(w) && Enabled(w, Request(id, q, reviewer, v)) && RowFree(w, q)
    ensures var p := Deciding(q, reviewer, v, Waiting);
            && Do(w, Request(id, q, reviewer, v)) == Put(w, id, p)
            && Enabled(Put(w, id, p), LockRow(id))
            && Do(Put(w, id, p), LockRow(id))
                 == if w.records.queue[q].status.Pending? then Put(w, id, p.(at := Holding)) else w
  {
    var p := Deciding(q, reviewer, v, Waiting);
    PutAgain(w, id, p, p.(at := Holding));
  }

  /** With the lock held, reading and committing undisturbed do what the service does. */
  lemma {:induction false} UndisturbedDecision(w: World, id: nat, q: nat, reviewer: int, v: Verdict)
    requires id !in w.processes && q < |w.records.queue| && w.records.queue[q].content < |w.records.contents|
    ensures var r := w.records;
            var content := r.contents[r.queue[q].content];
            var holding := Put(w, id, Deciding(q, reviewer, v, Holding));
            var read := Put(w, id, Deciding(q, reviewer, v, Read(content)));
            && Enabled(holding, ReadContent(id)) && Do(holding, ReadContent(id)) == read
            && Enabled(read, CommitDecision(id))
            && Do(read, CommitDecision(id)) == w.(records := Decided(r, q, content, reviewer, v))
  {
    var read := Deciding(q, reviewer, v, Read(w.records.contents[w.records.queue[q].content]));
    PutAgain(w, id, Deciding(q, reviewer, v, Holding), read);
    PutAgain(w.(records := Decided(w.records, q, read.at.copy, reviewer, v)), id, read, read);
  }
}
