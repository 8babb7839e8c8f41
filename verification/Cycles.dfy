/** What poll cycles, requeues and retention passes get done. */
module Cycles {
  import opened Reports
  import opened Ingest
  import opened IngestTheorems
  import opened Progress
  import opened Mailroom

  // --- what a mail's content demands ---

  /** Processed: some document in it parses. Ignored: it has no report-shaped part.
      Failed: everything else. */
  lemma VerdictIs(b: Body)
    ensures Verdict(b) == Processed <==>
      && b.Payloads?
      && (|| (exists i :: 0 <= i < |b.aggregates| && b.aggregates[i].Some?)
          || (exists i :: 0 <= i < |b.tls| && b.tls[i].Some?)
          || (exists i :: 0 <= i < |b.forensic| && b.forensic[i].Some?))
    ensures Verdict(b) == Ignored <==> b == Payloads([], [], [])
  {
    if b.Payloads? {
      DocsAre(b);
      hide Docs;
      var docs, m, n := Docs(b), |b.aggregates|, |b.tls|;
      if exists i :: 0 <= i < m && b.aggregates[i].Some? {
        var i :| 0 <= i < m && b.aggregates[i].Some?;
        assert docs[i].Parses();
      } else if exists i :: 0 <= i < n && b.tls[i].Some? {
        var i :| 0 <= i < n && b.tls[i].Some?;
        assert docs[m + i].Parses();
      } else if exists i :: 0 <= i < |b.forensic| && b.forensic[i].Some? {
        var i :| 0 <= i < |b.forensic| && b.forensic[i].Some?;
        assert docs[m + n + i].Parses();
      } else {
        assert forall j :: 0 <= j < |docs| ==> !docs[j].Parses();
      }
    }
  }

  /** The documents of a mail: reports, then TLS reports, then failure reports. */
  lemma DocsAre(b: Body)
    requires b.Payloads?
    ensures var docs, m, n := Docs(b), |b.aggregates|, |b.tls|;
      && |docs| == m + n + |b.forensic|
      && (forall j :: 0 <= j < m ==> docs[j] == Aggregate(b.aggregates[j]))
      && (forall j :: m <= j < m + n ==> docs[j] == Tls(b.tls[j - m]))
      && (forall j :: m + n <= j < |docs| ==> docs[j] == Forensic(b.forensic[j - m - n]))
      && (forall j :: 0 <= j < n ==> docs[m + j] == Tls(b.tls[j]))
      && (forall j :: 0 <= j < |b.forensic| ==> docs[m + n + j] == Forensic(b.forensic[j]))
  {
  }

  // --- MOVE ---

  /** A MOVE that succeeds takes every mail on its list out of INBOX and into its
      folder, and no other; one that fails does that for the part it took. */
  lemma MoveFiles(r: Room, f: Folder, part: set<MailId>)
    requires RoomInv(r) && r.poll.Moving?
    ensures var r', listed := DoEvent(r, Move(f)), r.poll.moves.Get(f);
      && (forall g :: r'.boxes.Get(g) == if g == f then r.boxes.Get(g) + listed else r.boxes.Get(g))
      && r'.inbox == r.inbox - listed && listed <= r.inbox
      && r'.poll.Moving? && forall g :: r'.poll.moves.Get(g) == if g == f then {} else r.poll.moves.Get(g)
    ensures var r', taken := DoEvent(r, MovePart(f, part)), part * r.poll.moves.Get(f);
      && (forall g :: r'.boxes.Get(g) == if g == f then r.boxes.Get(g) + taken else r.boxes.Get(g))
      && r'.inbox == r.inbox - taken && r'.poll.Resting?
  {
    var listed := r.poll.moves.Get(f);
    forall m | m in listed ensures m in r.inbox { assert m in Moves(r.poll).Get(f); }
    assert listed * r.inbox == listed && part * listed * r.inbox == part * listed;
  }

  // --- a mail on its way ---

  function VerdictOn(r: Room, m: MailId): Folder
    requires m in r.mails
  {
    Verdict(r.mails[m].body)
  }

  /** A cycle has fetched m: m is still to be processed, or being processed without a
      failed call, or on the list of the folder it belongs to, or there. */
  ghost predicate OnItsWay(r: Room, m: MailId) {
    && m in r.mails
    && (|| m in r.boxes.Get(VerdictOn(r, m))
        || (m in r.inbox
            && (m in Todo(r.poll) || m in Moves(r.poll).Get(VerdictOn(r, m)))
            && (r.poll.Reading? && r.poll.mail == m ==> Poller in r.core.tasks)))
  }

  /** What can keep a fetched mail from its folder, or take it from there: a crash, a
      MOVE that fails, a failing store call, the requeue of it, its removal. */
  predicate Disturbs(r: Room, e: Event, m: MailId) {
    match e
    case CrashAll => true
    case MovePart(_, _) => true
    case Requeue(ms) => m in ms
    case Expunge(_, part) => m in part
    case Step(Work(tid, effect)) =>
      tid == Poller && Poller in r.core.tasks && StoreFails(r.core, r.core.tasks[Poller], effect)
    case _ => false
  }

  predicate Calm(r: Room, es: seq<Event>, m: MailId)
    decreases |es|
  {
    es == [] || (!Disturbs(r, es[0], m) && Calm(DoEvent(r, es[0]), es[1..], m))
  }

  lemma AddKeeps(moves: Filing, g: Folder, k: MailId, f: Folder, m: MailId)
    ensures m in moves.Add(g, k).Get(f) <==> m in moves.Get(f) || (k == m && f == g)
  {
  }

  lemma OpenKeepsWay(r: Room, m: MailId)
    requires RoomInv(r) && OnItsWay(r, m)
    ensures OnItsWay(DoOpen(r), m)
  {
    if r.poll.Sorting? && r.poll.todo != [] && r.poll.todo[0] in r.mails {
      var first, moves, v := r.poll.todo[0], r.poll.moves, VerdictOn(r, m);
      assert r.poll.todo == [first] + r.poll.todo[1..];
      AddKeeps(moves, Failed, first, v, m);
      AddKeeps(moves, Ignored, first, v, m);
      VerdictOfNone(r.mails[first].body);
      hide Docs, Verdict, RoomInv, Do;
      BeginsTask(r.core, Docs(r.mails[first].body));
    }
  }

  lemma VerdictOfNone(b: Body)
    ensures !b.Payloads? ==> Verdict(b) == Failed
    ensures b.Payloads? && Docs(b) == [] ==> Verdict(b) == Ignored
  {
  }

  lemma BeginsTask(s: State, docs: seq<Doc>)
    ensures Poller in Do(s, Begin(Poller, docs, false)).tasks
  {
  }

  lemma CloseKeepsWay(r: Room, m: MailId)
    requires RoomInv(r) && OnItsWay(r, m)
    ensures OnItsWay(DoClose(r), m)
  {
    if r.poll.Reading? {
      var first, moves, v := r.poll.mail, r.poll.moves, VerdictOn(r, m);
      if Poller in r.core.tasks && Done(r.core.tasks[Poller]) {
        var t := r.core.tasks[Poller];
        OutcomeIsVerdict(r.core.db, t, r.mails[first].body);
        AddKeeps(moves, Outcome(t.stored, t.parseErrs), first, v, m);
      }
      hide Docs, Verdict, Outcome, TaskInv, RoomInv, Do;
    }
  }

  lemma StepKeepsWay(r: Room, a: Action, m: MailId)
    requires RoomInv(r) && OnItsWay(r, m) && !Disturbs(r, Step(a), m)
    ensures OnItsWay(DoEvent(r, Step(a)), m)
  {
    if CoreAction(a) && Poller in r.core.tasks {
      assert !r.core.tasks[Poller].strict by { assert ReadingInv(r); }
      if a.Work? && a.tid == Poller {
        WorkEndsIff(r.core, a.effect);
      } else {
        OthersSparePoller(r.core, a);
      }
    }
  }

  lemma EventKeepsWay(r: Room, e: Event, m: MailId)
    requires RoomInv(r) && OnItsWay(r, m) && !Disturbs(r, e, m)
    ensures OnItsWay(DoEvent(r, e), m)
  {
    match e {
      case Step(a) => StepKeepsWay(r, a, m);
      case Open => OpenKeepsWay(r, m);
      case Close => CloseKeepsWay(r, m);
      case Move(f) => if r.poll.Moving? { MoveFiles(r, f, {}); }
      case _ =>
    }
  }

  lemma {:induction false} RunKeepsWay(r: Room, es: seq<Event>, m: MailId)
    requires RoomInv(r) && OnItsWay(r, m) && Calm(r, es, m)
    ensures RoomInv(RunRoom(r, es)) && OnItsWay(RunRoom(r, es), m)
    decreases |es|
  {
    if es == [] {
    } else {
      EventKeepsWay(r, es[0], m);
      EventKeepsRoom(r, es[0]);
      RunKeepsWay(DoEvent(r, es[0]), es[1..], m);
    }
  }

  /** A cycle that has come to its end without a crash, a failed MOVE or a failing store
      call on the mail has filed it: every mail it fetched is out of INBOX and in the
      folder its content demands, whatever else happened meanwhile. */
  lemma EndedCycleHasFiled(r: Room, order: seq<MailId>, es: seq<Event>, m: MailId)
    requires ReachableRoom(r) && Lists(r, Fetch(order), m)
    requires Calm(DoEvent(r, Fetch(order)), es, m) && RunRoom(DoEvent(r, Fetch(order)), es).poll.Resting?
    ensures m in r.mails
    ensures var r' := RunRoom(DoEvent(r, Fetch(order)), es);
      m in r'.boxes.Get(Verdict(r.mails[m].body)) && m !in r'.inbox
  {
    var r1 := DoEvent(r, Fetch(order));
    ReachableRoomInv(r);
    EventKeepsRoom(r, Fetch(order));
    assert m in Ids(order) && m in r.inbox && m in r.mails.Keys;
    RunKeepsWay(r1, es, m);
    MailsStay(r1, es, m);
    InOnePlace(RunRoom(r1, es), m, Verdict(r.mails[m].body));
  }

  lemma InOnePlace(r: Room, m: MailId, f: Folder)
    requires RoomInv(r)
    ensures m in r.boxes.Get(f) ==> m !in r.inbox
  {
  }

  lemma {:induction false} MailsStay(r: Room, es: seq<Event>, m: MailId)
    requires m in r.mails
    ensures m in RunRoom(r, es).mails && RunRoom(r, es).mails[m] == r.mails[m]
    decreases |es|
  {
    if es == [] {
    } else {
      MailsStay(DoEvent(r, es[0]), es[1..], m);
    }
  }

  // --- a cycle that meets no failure ends ---

  /** A step of the poller that does not fail. */
  predicate Smoothly(e: Event) {
    match e
    case Step(Work(tid, effect)) => tid == Poller && effect.Ok?
    case Open => true
    case Close => true
    case StartMoves => true
    case Move(_) => true
    case EndCycle => true
    case _ => false
  }

  predicate AllSmooth(es: seq<Event>) { forall k :: 0 <= k < |es| ==> Smoothly(es[k]) }

  lemma {:induction false} RunRoomConcat(r: Room, a: seq<Event>, b: seq<Event>)
    ensures RunRoom(r, a + b) == RunRoom(RunRoom(r, a), b)
    decreases |a|
  {
    if a == [] {
      assert a + b == b;
    } else {
      assert (a + b)[1..] == a[1..] + b;
      RunRoomConcat(DoEvent(r, a[0]), a[1..], b);
    }
  }

  function Steps(acts: seq<Action>): (es: seq<Event>)
    ensures |es| == |acts|
  {
    seq(|acts|, i requires 0 <= i < |acts| => Step(acts[i]))
  }

  lemma {:induction false} LiftRun(r: Room, acts: seq<Action>)
    requires OwnSteps(acts, Poller)
    ensures RunRoom(r, Steps(acts)) == r.(core := Run(r.core, acts)) && AllSmooth(Steps(acts))
    decreases |acts|
  {
    if acts == [] {
    } else {
      assert OwnStep(acts[0], Poller);
      assert Steps(acts)[0] == Step(acts[0]) && Steps(acts)[1..] == Steps(acts[1..]);
      LiftRun(DoEvent(r, Step(acts[0])), acts[1..]);
      assert Steps(acts) == [Step(acts[0])] + Steps(acts[1..]);
    }
  }

  lemma OneMore(r: Room, e: Event, es: seq<Event>)
    requires Smoothly(e) && AllSmooth(es)
    ensures AllSmooth([e] + es) && RunRoom(r, [e] + es) == RunRoom(DoEvent(r, e), es)
  {
    assert ([e] + es)[1..] == es;
  }

  lemma MovesEnd(r: Room) returns (es: seq<Event>)
    requires r.poll.Moving?
    ensures AllSmooth(es) && RunRoom(r, es).poll.Resting?
  {
    es := [Move(Processed), Move(Ignored), Move(Failed), EndCycle];
    assert es[1..] == [Move(Ignored), Move(Failed), EndCycle];
    assert es[1..][1..] == [Move(Failed), EndCycle];
    assert es[1..][1..][1..] == [EndCycle];
    var r1 := DoEvent(r, Move(Processed));
    var r2 := DoEvent(r1, Move(Ignored));
    var r3 := DoEvent(r2, Move(Failed));
    assert r3.poll == Moving(NOTHING);
    assert RunRoom(r3, [EndCycle]) == DoEvent(r3, EndCycle);
    assert RunRoom(r, es) == RunRoom(r1, es[1..]) == RunRoom(r2, es[1..][1..]) == RunRoom(r3, [EndCycle]);
  }

  /** The poller goes through the documents of the mail it is reading. */
  lemma DocsEnd(r: Room) returns (es: seq<Event>)
    requires RoomInv(r) && r.poll.Reading?
    ensures var r' := RunRoom(r, es);
      && AllSmooth(es) && RoomInv(r') && r'.poll == r.poll
      && (Poller in r'.core.tasks ==> Done(r'.core.tasks[Poller]))
  {
    var acts := [];
    if Poller in r.core.tasks {
      assert ReadingInv(r);
      acts := CanFinish(r.core, Poller);
    }
    es := Steps(acts);
    LiftRun(r, acts);
    hide RoomInv, Inv, AllSmooth, OwnSteps, Done;
    RunKeepsRoom(r, es);
  }

  lemma ReadingEnds(r: Room) returns (es: seq<Event>)
    requires RoomInv(r) && r.poll.Reading?
    ensures var r' := RunRoom(r, es); AllSmooth(es) && RoomInv(r') && r'.poll.Sorting? && r'.poll.todo == r.poll.todo
  {
    var before := DocsEnd(r);
    hide RoomInv, Do, Done;
    var r1 := RunRoom(r, before);
    EventKeepsRoom(r1, Close);
    es := before + [Close];
    RunRoomConcat(r, before, [Close]);
    assert RunRoom(r1, [Close]) == DoEvent(r1, Close);
  }

  lemma FirstIsThere(r: Room)
    requires RoomInv(r) && r.poll.Sorting? && r.poll.todo != []
    ensures r.poll.todo[0] in r.mails
  {
    assert r.poll.todo[0] in Todo(r.poll);
    hide Inv, FilingInv, RetentionInv, ReadingInv;
    assert r.poll.todo[0] in r.mails.Keys;
  }

  lemma {:induction false} CanRest(r: Room) returns (es: seq<Event>)
    requires RoomInv(r)
    ensures AllSmooth(es) && RunRoom(r, es).poll.Resting?
    decreases |Waiting(r.poll)|, if r.poll.Reading? then 1 else 0
  {
    match r.poll
    case Resting => es := [];
    case Moving(_) => es := MovesEnd(r);
    case Reading(_, _, _) =>
      var before := ReadingEnds(r);
      hide RoomInv;
      var after := CanRest(RunRoom(r, before));
      RunRoomConcat(r, before, after);
      es := before + after;
    case Sorting(todo, moves) =>
      var e := if todo == [] then StartMoves else Open;
      EventKeepsRoom(r, e);
      if todo != [] { FirstIsThere(r); }
      hide RoomInv, Docs, Do;
      var after;
      if todo == [] { after := MovesEnd(DoEvent(r, e)); } else { after := CanRest(DoEvent(r, e)); }
      OneMore(r, e, after);
      es := [e] + after;
  }

  lemma {:induction false} SmoothIsCalm(r: Room, es: seq<Event>, m: MailId)
    requires AllSmooth(es)
    ensures Calm(r, es, m)
    decreases |es|
  {
    if es == [] {
    } else {
      assert Smoothly(es[0]);
      assert forall k :: 0 <= k < |es[1..]| ==> es[1..][k] == es[k + 1];
      SmoothIsCalm(DoEvent(r, es[0]), es[1..], m);
    }
  }

  /** A cycle none of whose calls fails comes to its end, whatever it fetched, and then
      every mail it fetched is where its content demands, and nothing of it is left
      in INBOX. */
  lemma SmoothCycleFilesAll(r: Room, order: seq<MailId>) returns (es: seq<Event>)
    requires ReachableRoom(r) && r.poll.Resting? && Unseen(r, order)
    ensures AllSmooth(es)
    ensures var r' := RunRoom(DoEvent(r, Fetch(order)), es);
      && r'.poll.Resting?
      && forall m :: m in r.inbox && m !in r.seen ==>
           m in r.mails && m in r'.boxes.Get(Verdict(r.mails[m].body)) && m !in r'.inbox
  {
    var r1 := DoEvent(r, Fetch(order));
    ReachableRoomInv(r);
    EventKeepsRoom(r, Fetch(order));
    es := CanRest(r1);
    forall m | m in r.inbox && m !in r.seen
      ensures m in r.mails && m in RunRoom(r1, es).boxes.Get(Verdict(r.mails[m].body)) && m !in RunRoom(r1, es).inbox
    {
      assert m in Ids(order);
      SmoothIsCalm(r1, es, m);
      EndedCycleHasFiled(r, order, es, m);
    }
  }

  // --- requeue and retention ---

  /** The requeue endpoint clears the flags of the failed mails and moves them: they are
      in INBOX, out of Failed and unseen, so the next cycle fetches them; no other
      mail moves. */
  lemma RequeueReturns(r: Room, ms: set<MailId>)
    requires RoomInv(r)
    ensures var r' := DoEvent(DoEvent(r, Unsee(ms)), Requeue(ms));
      && r'.inbox == r.inbox + ms * r.boxes.failed && r'.boxes == r.boxes.(failed := r.boxes.failed - ms)
      && (forall m :: m in ms ==> m !in r'.seen) && (forall m :: m !in ms ==> (m in r'.seen <==> m in r.seen))
      && forall order, m :: r.poll.Resting? && Unseen(r', order) && m in ms && m in r.boxes.failed ==>
           Lists(r', Fetch(order), m)
  {
    var r' := DoEvent(DoEvent(r, Unsee(ms)), Requeue(ms));
    forall order, m | r.poll.Resting? && Unseen(r', order) && m in ms && m in r.boxes.failed
      ensures Lists(r', Fetch(order), m) {
      assert m in Ids(order);
    }
  }

  /** A mail that arrives is in INBOX, and as long as nobody has seen it the next cycle
      fetches it; one that was read is fetched by none. */
  lemma ArrivedIsFetched(r: Room, m: MailId, mail: Mail)
    requires RoomInv(r) && m !in r.mails
    ensures var r' := DoEvent(r, Deliver(m, mail));
      && r'.mails == r.mails[m := mail] && r'.inbox == r.inbox + {m}
      && r'.(mails := r.mails, inbox := r.inbox) == r
      && (forall order :: r.poll.Resting? && m !in r.seen && Unseen(r', order) ==> Lists(r', Fetch(order), m))
      && (forall order :: !Lists(DoEvent(r', Read(m)), Fetch(order), m))
  {
    var r' := DoEvent(r, Deliver(m, mail));
    forall order | r.poll.Resting? && m !in r.seen && Unseen(r', order) ensures Lists(r', Fetch(order), m) {
      assert m in Ids(order);
    }
    var r2 := DoEvent(r', Read(m));
    forall order ensures !Lists(r2, Fetch(order), m) {
      if Unseen(r2, order) { assert m !in Ids(order); }
    }
  }

  predicate Old(r: Room, m: MailId) { m in r.mails && r.mails[m].date < r.now - r.keep }

  /** A retention pass over a folder that meets no error removes exactly the mails
      older than the retention period, and touches no other folder. */
  lemma RetentionRemovesOld(r: Room, f: Folder, found: set<MailId>)
    requires RoomInv(r) && f != Failed
    requires forall m :: m in found <==> m in r.boxes.Get(f) && Old(r, m)
    ensures var r' := DoEvent(DoEvent(r, Flag(f, found)), Expunge(f, r.boxes.Get(f)));
      && (forall m :: m in r'.boxes.Get(f) <==> m in r.boxes.Get(f) && r.now - r.keep <= r.mails[m].date)
      && r'.expunged == r.expunged + found
      && r'.inbox == r.inbox && forall g :: g != f ==> r'.boxes.Get(g) == r.boxes.Get(g)
  {
    hide Inv, FilingInv, ReadingInv, WorkInv, Verdict;
    var r1 := DoEvent(r, Flag(f, found));
    assert r1.deleted == r.deleted + found;
    forall m | m in r.boxes.Get(f) ensures m in r.mails && (m in r1.deleted <==> m in found) {
      assert m in r.mails.Keys;
    }
    assert r.boxes.Get(f) * r.boxes.Get(f) * r1.deleted == found;
  }
}
