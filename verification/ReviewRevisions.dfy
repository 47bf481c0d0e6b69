/** Assessments of one proposal: immutable revisions, and a head that names the latest one. A save can
    be interrupted between the revision and the head, and inside the revision. */
module ReviewRevisions {
  import opened Options

  datatype Request = Request(expected: int, verdict: string, reason: string, note: string, base: string, proposed: string,
                             current: string)

  const VERDICTS := {"acceptable", "needs_correction", "rejected"}
  const REASONS := {"none", "source_mismatch", "proposal_error", "insufficient_evidence", "identity_mismatch", "other"}

  predicate ValidRequest(r: Request) {
    r.expected >= 0 && r.verdict in VERDICTS && r.reason in REASONS && |r.note| <= 2048
  }

  datatype Record = Record(revision: nat, request: Request, savedAt: nat)

  /** The directory. A revision file without a record was only partly written. No head is revision 0. */
  datatype Dir = Dir(head: nat, revisions: map<nat, Option<Record>>)

  const EMPTY := Dir(0, map[])

  datatype Result = Saved(record: Record) | Conflict | Failed

  /** A write takes effect, is lost, takes effect although an error is reported, or leaves half a
      file; the head is replaced as a whole and never torn. */
  datatype Fault = Works | LostBefore | LostAfter | Torn

  predicate Readable(d: Dir, n: nat) {
    n in d.revisions && d.revisions[n].Some?
  }

  /** Points the head at a revision, and then gives the answer. */
  function PublishHead(d: Dir, n: nat, fault: Fault, answer: Result): (Dir, Result) {
    match fault
    case Works => (d.(head := n), answer)
    case LostAfter => (d.(head := n), Failed)
    case _ => (d, Failed)
  }

  function Save(d: Dir, req: Request, now: nat, onRevision: Fault, onHead: Fault): (Dir, Result) {
    var n := d.head + 1;
    if !ValidRequest(req) || (d.head > 0 && !Readable(d, d.head)) then (d, Failed)
    else if d.head > 0 && d.revisions[d.head].value.request == req then (d, Saved(d.revisions[d.head].value))
    else if d.head != req.expected then
      if Readable(d, n) then PublishHead(d, n, onHead, Conflict) else (d, Conflict)
    else if n in d.revisions then
      if d.revisions[n].None? then (d, Failed)
      else if d.revisions[n].value.request != req then PublishHead(d, n, onHead, Conflict)
      else PublishHead(d, n, onHead, Saved(d.revisions[n].value))
    else
      var record := Record(n, req, now);
      match onRevision
      case LostBefore => (d, Failed)
      case Torn => (d.(revisions := d.revisions[n := None]), Failed)
      case LostAfter => (d.(revisions := d.revisions[n := Some(record)]), Failed)
      case Works => PublishHead(d.(revisions := d.revisions[n := Some(record)]), n, onHead, Saved(record))
  }

  /** The same, step by step, on the files of the directory. */
  class Reviews {
    var head: nat
    var revisions: map<nat, Option<Record>>

    constructor ()
      ensures Files() == EMPTY
    {
      head, revisions := 0, map[];
    }

    function Files(): Dir
      reads this
    {
      Dir(head, revisions)
    }

    method WriteHead(n: nat, fault: Fault) returns (ok: bool)
      modifies this`head
      ensures head == if fault.Works? || fault.LostAfter? then n else old(head)
      ensures ok == fault.Works?
    {
      if fault.Works? || fault.LostAfter? {
        head := n;
      }
      ok := fault.Works?;
    }

    /** Creates a revision file, which must not be there. */
    method WriteRevision(n: nat, record: Record, fault: Fault) returns (ok: bool)
      requires n !in revisions
      modifies this`revisions
      ensures revisions == match fault
                           case LostBefore => old(revisions)
                           case Torn => old(revisions)[n := None]
                           case _ => old(revisions)[n := Some(record)]
      ensures ok == fault.Works?
    {
      match fault
      case LostBefore =>
        ok := false;
      case Torn =>
        revisions := revisions[n := None];
        ok := false;
      case _ =>
        revisions := revisions[n := Some(record)];
        ok := fault.Works?;
    }

    method SaveAssessment(req: Request, now: nat, onRevision: Fault, onHead: Fault) returns (r: Result)
      modifies this
      ensures (Files(), r) == Save(old(Files()), req, now, onRevision, onHead)
    {
      if !ValidRequest(req) {
        return Failed;
      }
      if head > 0 {
        if head !in revisions || revisions[head].None? {
          return Failed;
        }
        var prior := revisions[head].value;
        if prior.request == req {
          return Saved(prior);
        }
      }
      var n := head + 1;
      if head != req.expected {
        if n in revisions && revisions[n].Some? {
          var published := WriteHead(n, onHead);
          if !published {
            return Failed;
          }
        }
        return Conflict;
      }
      var record := Record(n, req, now);
      if n in revisions {
        if revisions[n].None? {
          return Failed;
        }
        record := revisions[n].value;
        if record.request != req {
          var published := WriteHead(n, onHead);
          return if published then Conflict else Failed;
        }
      } else {
        var written := WriteRevision(n, record, onRevision);
        if !written {
          return Failed;
        }
      }
      var published := WriteHead(n, onHead);
      r := if published then Saved(record) else Failed;
    }
  }

  // ---------------------------------------------------------------- runs

  datatype Call = Call(req: Request, now: nat, onRevision: Fault, onHead: Fault)

  function After(d: Dir, c: Call): Dir {
    Save(d, c.req, c.now, c.onRevision, c.onHead).0
  }

  function Answer(d: Dir, c: Call): Result {
    Save(d, c.req, c.now, c.onRevision, c.onHead).1
  }

  function Run(d: Dir, calls: seq<Call>): Dir
    decreases |calls|
  {
    if calls == [] then d else After(Run(d, calls[..|calls| - 1]), calls[|calls| - 1])
  }

  /** Revision `n` is there as it was accepted: against the revision before it. */
  ghost predicate RevisionOk(d: Dir, n: nat) {
    && (1 <= n <= d.head ==> Readable(d, n))
    && (n in d.revisions ==> 1 <= n <= d.head + 1)
    && (Readable(d, n) ==> d.revisions[n].value.revision == n && d.revisions[n].value.request.expected == n - 1
                           && ValidRequest(d.revisions[n].value.request))
  }

  /** The revisions are numbered from 1 to the head, or to one behind the head. */
  ghost predicate Good(d: Dir) {
    forall n: nat :: RevisionOk(d, n)
  }

  lemma {:induction false} SaveKeepsRevision(d: Dir, c: Call, n: nat)
    requires RevisionOk(d, n) && RevisionOk(d, d.head + 1)
    ensures RevisionOk(After(d, c), n)
  {
  }

  lemma {:induction false} SaveKeeps(d: Dir, c: Call)
    requires Good(d)
    ensures Good(After(d, c))
  {
    assert RevisionOk(d, d.head + 1);
    forall n: nat
      ensures RevisionOk(After(d, c), n)
    {
      assert RevisionOk(d, n);
      SaveKeepsRevision(d, c, n);
    }
  }

  lemma {:induction false} RunIsGood(calls: seq<Call>)
    ensures Good(Run(EMPTY, calls))
    decreases |calls|
  {
    if calls == [] {
      assert forall n: nat :: RevisionOk(EMPTY, n);
    } else {
      RunIsGood(calls[..|calls| - 1]);
      SaveKeeps(Run(EMPTY, calls[..|calls| - 1]), calls[|calls| - 1]);
    }
  }

  /** In every run, with writes that fail in any way, the head names a revision that is there, the
      revisions are contiguous, and each of them was accepted against the one before. */
  lemma {:induction false} RevisionsAreContiguous(calls: seq<Call>, n: nat)
    ensures var d := Run(EMPTY, calls);
            && (1 <= n <= d.head ==> n in d.revisions && d.revisions[n].Some?)
            && (n in d.revisions ==> 1 <= n <= d.head + 1)
            && (n in d.revisions && d.revisions[n].Some? ==>
                  d.revisions[n].value.revision == n && d.revisions[n].value.request.expected == n - 1)
  {
    RunIsGood(calls);
    assert RevisionOk(Run(EMPTY, calls), n);
  }

  /** A call adds at most one revision, never changes one, and moves the head by at most one, never
      back. */
  lemma {:induction false} RevisionsAreImmutable(d: Dir, c: Call)
    ensures d.head <= After(d, c).head <= d.head + 1
    ensures forall n :: n in d.revisions ==> n in After(d, c).revisions && After(d, c).revisions[n] == d.revisions[n]
    ensures After(d, c).revisions.Keys <= d.revisions.Keys + {d.head + 1}
  {
  }

  /** What an answer means: a saved request is the latest revision, and a conflict means that the
      request did not name the head that the call found, or that an interrupted save had come first;
      that one is published now. */
  lemma {:induction false} AnswersAreTrue(d: Dir, c: Call)
    requires Good(d)
    ensures var n := After(d, c);
            match Answer(d, c)
            case Saved(r) => r.request == c.req && r.revision == n.head == c.req.expected + 1 && Readable(n, n.head) && n.revisions[n.head].value == r
            case Conflict =>
              && (n.head > 0 ==> Readable(n, n.head) && n.revisions[n.head].value.request != c.req)
              && (c.req.expected != d.head || (n.head == d.head + 1 && Readable(d, n.head)))
            case Failed => true
  {
    assert RevisionOk(d, d.head) && RevisionOk(d, d.head + 1);
  }

  /** Sending the latest accepted request again answers the same and adds nothing, whatever goes
      wrong. */
  lemma {:induction false} ResendingAddsNothing(d: Dir, c: Call, again: Call)
    requires Good(d) && Answer(d, c).Saved? && again.req == c.req
    ensures After(After(d, c), again) == After(d, c) && Answer(After(d, c), again) == Answer(d, c)
  {
    AnswersAreTrue(d, c);
    assert RevisionOk(d, d.head) && RevisionOk(d, d.head + 1);
    SaveKeeps(d, c);
    assert RevisionOk(After(d, c), After(d, c).head);
  }

  /** A save that failed, sent again when nothing fails, is either stored exactly once, or the call
      says why not. It stays failed exactly when the next revision is half written. */
  lemma {:induction false} RetrySettles(d: Dir, c: Call, now: nat)
    requires Good(d) && Answer(d, c).Failed? && ValidRequest(c.req)
    ensures var mid := After(d, c);
            var again := Call(c.req, now, Works, Works);
            && (Answer(mid, again).Failed? <==> mid.head == c.req.expected && mid.head + 1 in mid.revisions && !Readable(mid, mid.head + 1))
            && (Answer(mid, again).Saved? ==>
                  && After(mid, again).head == c.req.expected + 1
                  && forall n :: n in After(mid, again).revisions ==> n in d.revisions || n == c.req.expected + 1)
  {
    var mid := After(d, c);
    SaveKeeps(d, c);
    assert RevisionOk(mid, mid.head) && RevisionOk(mid, mid.head + 1) && RevisionOk(d, d.head + 1) && RevisionOk(d, d.head);
  }

  /** A half-written revision ends the history: no later call changes anything. Only such a revision
      does: without one, a valid request against the head is saved when nothing fails, or publishes an
      interrupted save. */
  lemma {:induction false} TornRevisionBlocks(d: Dir, calls: seq<Call>)
    requires Good(d) && d.head + 1 in d.revisions && !Readable(d, d.head + 1)
    ensures Run(d, calls) == d
    decreases |calls|
  {
    if calls != [] {
      TornRevisionBlocks(d, calls[..|calls| - 1]);
    }
  }

  lemma {:induction false} HistoryGoesOn(d: Dir, req: Request, now: nat)
    requires Good(d) && ValidRequest(req) && req.expected == d.head
    ensures var c := Call(req, now, Works, Works);
            After(d, c).head == d.head + 1 <==> !(d.head + 1 in d.revisions && !Readable(d, d.head + 1))
  {
    assert RevisionOk(d, d.head) && RevisionOk(d, d.head + 1);
  }
}
