/** The mailbox around the ingest system: deliveries, poll cycles, the MOVE of
    each outcome folder (which may fail after taking some of the messages), the
    requeue endpoint, mail retention, people reading mail, and crashes. UIDs change when a message
    moves; a MailId names the message itself. */
module Mailroom {
  import opened Reports
  import opened Ingest

  type MailId = nat

  /** What ExtractPayloads finds. Empty: the fetched body section was empty.
      Unreadable: nothing report-shaped could be read and something failed. */
  datatype Body =
    | Empty
    | Unreadable
    | Payloads(aggregates: seq<Option<Report>>, tls: seq<Option<TlsReport>>, forensic: seq<Option<ForensicReport>>)

  datatype Mail = Mail(body: Body, date: int)

  datatype Folder = Processed | Ignored | Failed

  datatype Filing = Filing(processed: set<MailId>, ignored: set<MailId>, failed: set<MailId>)
  {
    function Add(f: Folder, m: MailId): Filing {
      match f
      case Processed => this.(processed := processed + {m})
      case Ignored => this.(ignored := ignored + {m})
      case Failed => this.(failed := failed + {m})
    }

    function Clear(f: Folder): Filing {
      match f
      case Processed => this.(processed := {})
      case Ignored => this.(ignored := {})
      case Failed => this.(failed := {})
    }

    function Get(f: Folder): set<MailId> {
      match f
      case Processed => processed
      case Ignored => ignored
      case Failed => failed
    }
  }

  const NOTHING := Filing({}, {}, {})

  datatype Poll =
    | Resting
    | Sorting(todo: seq<MailId>, moves: Filing)
    | Reading(mail: MailId, todo: seq<MailId>, moves: Filing)
    | Moving(moves: Filing)

  datatype Room = Room(
    core: State,
    mails: map<MailId, Mail>,
    inbox: set<MailId>,
    boxes: Filing,
    expunged: set<MailId>,
    seen: set<MailId>,
    deleted: set<MailId>,
    poll: Poll,
    now: int,
    keep: nat)

  datatype Event =
    | Deliver(m: MailId, mail: Mail)
    | Step(a: Action)                       // API calls, document steps, rebuilds
    | Fetch(order: seq<MailId>)             // SEARCH UNSEEN and FETCH
    | Open
    | Close
    | StartMoves
    | Move(f: Folder)
    | MovePart(f: Folder, part: set<MailId>) // takes some messages, then fails
    | EndCycle
    | CrashAll
    | Unsee(ms: set<MailId>)                // requeue: clear \Seen
    | Requeue(ms: set<MailId>)              // requeue: MOVE Failed -> INBOX
    | Flag(f: Folder, ms: set<MailId>)      // retention: SEARCH BEFORE and STORE \Deleted
    | Expunge(f: Folder, part: set<MailId>) // all of them, or fewer and an error
    | Tick(t: int)
    | Read(m: MailId)                       // a person opens a message

  function EmptyRoom(keep: nat): Room {
    Room(INIT, map[], {}, NOTHING, {}, {}, {}, Resting, 0, keep)
  }

  // --- one mail ---

  function Docs(b: Body): seq<Doc> {
    if b.Payloads? then
      seq(|b.aggregates|, i requires 0 <= i < |b.aggregates| => Aggregate(b.aggregates[i]))
      + seq(|b.tls|, i requires 0 <= i < |b.tls| => Tls(b.tls[i]))
      + seq(|b.forensic|, i requires 0 <= i < |b.forensic| => Forensic(b.forensic[i]))
    else []
  }

  /** The poller's decision once every document has been tried. */
  function Outcome(stored: nat, parseErrs: nat): Folder {
    if stored == 0 && 0 < parseErrs then Failed else Processed
  }

  /** Where a mail belongs, read off its content alone. */
  function Verdict(b: Body): Folder {
    if !b.Payloads? then Failed
    else if Docs(b) == [] then Ignored
    else if exists j :: 0 <= j < |Docs(b)| && Docs(b)[j].Parses() then Processed
    else Failed
  }

  ghost predicate AllStored(db: Db, docs: seq<Doc>) {
    forall j :: 0 <= j < |docs| && docs[j].Parses() ==> Stored(db, docs[j])
  }

  ghost predicate FiledRight(db: Db, b: Body, f: Folder) {
    Verdict(b) == f && (f == Processed ==> AllStored(db, Docs(b)))
  }

  // --- steps ---

  predicate CoreAction(a: Action) {
    match a
    case Begin(tid, _, _) => tid.Api?
    case Finish(tid) => tid.Api?
    case Crash => false
    case _ => true
  }

  function DoOpen(r: Room): Room {
    if !r.poll.Sorting? || r.poll.todo == [] then r
    else
      var m, rest, moves := r.poll.todo[0], r.poll.todo[1..], r.poll.moves;
      if m !in r.mails then r
      else
        var b := r.mails[m].body;
        if !b.Payloads? then r.(poll := Sorting(rest, moves.Add(Failed, m)))
        else if Docs(b) == [] then r.(poll := Sorting(rest, moves.Add(Ignored, m)))
        else r.(core := Do(r.core, Begin(Poller, Docs(b), false)), poll := Reading(m, rest, moves))
  }

  /** A task that is gone hit a database error: the mail is not filed. */
  function DoClose(r: Room): Room {
    if !r.poll.Reading? then r
    else
      var m, todo, moves := r.poll.mail, r.poll.todo, r.poll.moves;
      if Poller !in r.core.tasks then r.(poll := Sorting(todo, moves))
      else
        var t := r.core.tasks[Poller];
        if !Done(t) then r
        else r.(core := Do(r.core, Finish(Poller)), poll := Sorting(todo, moves.Add(Outcome(t.stored, t.parseErrs), m)))
  }

  function File(r: Room, f: Folder, ms: set<MailId>): Room {
    var boxes := match f
      case Processed => r.boxes.(processed := r.boxes.processed + ms)
      case Ignored => r.boxes.(ignored := r.boxes.ignored + ms)
      case Failed => r.boxes.(failed := r.boxes.failed + ms);
    r.(inbox := r.inbox - ms, boxes := boxes)
  }

  predicate Distinct(order: seq<MailId>) {
    forall i, j :: 0 <= i < j < |order| ==> order[i] != order[j]
  }

  /** What SEARCH UNSEEN and FETCH answer: each unseen message of INBOX once. */
  predicate Unseen(r: Room, order: seq<MailId>) {
    Distinct(order) && Ids(order) == r.inbox - r.seen
  }

  function Ids(order: seq<MailId>): set<MailId> { set m | m in order }

  /** Event e starts a cycle that fetches m. */
  predicate Lists(r: Room, e: Event, m: MailId) {
    e.Fetch? && r.poll.Resting? && Unseen(r, e.order) && m in e.order
  }

  function DoEvent(r: Room, e: Event): Room {
    match e
    case Deliver(m, mail) => if m in r.mails then r else r.(mails := r.mails[m := mail], inbox := r.inbox + {m})
    case Step(a) => if CoreAction(a) then r.(core := Do(r.core, a)) else r
    case Fetch(order) => if r.poll.Resting? && Unseen(r, order) then r.(poll := Sorting(order, NOTHING)) else r
    case Open => DoOpen(r)
    case Close => DoClose(r)
    case StartMoves => if r.poll.Sorting? && r.poll.todo == [] then r.(poll := Moving(r.poll.moves)) else r
    case Move(f) =>
      if !r.poll.Moving? then r
      else File(r, f, r.poll.moves.Get(f) * r.inbox).(poll := Moving(r.poll.moves.Clear(f)))
    case MovePart(f, part) =>
      if !r.poll.Moving? then r
      else File(r, f, part * r.poll.moves.Get(f) * r.inbox).(poll := Resting)
    case EndCycle => if r.poll.Moving? && r.poll.moves == NOTHING then r.(poll := Resting) else r
    case CrashAll => r.(core := Do(r.core, Crash), poll := Resting)
    case Unsee(ms) => r.(seen := r.seen - ms)
    case Requeue(ms) =>
      r.(inbox := r.inbox + ms * r.boxes.failed, boxes := r.boxes.(failed := r.boxes.failed - ms))
    case Flag(f, ms) =>
      if f != Failed && ms <= r.boxes.Get(f)
        && (forall m :: m in ms && m in r.mails ==> r.mails[m].date < r.now - r.keep)
      then r.(deleted := r.deleted + ms) else r
    case Expunge(f, part) =>
      if f == Failed then r
      else
        var gone := part * r.boxes.Get(f) * r.deleted;
        var boxes := if f == Processed then r.boxes.(processed := r.boxes.processed - gone)
                     else r.boxes.(ignored := r.boxes.ignored - gone);
        r.(boxes := boxes, expunged := r.expunged + gone)
    case Tick(t) => if r.now <= t then r.(now := t) else r
    case Read(m) => if m in r.mails then r.(seen := r.seen + {m}) else r
  }

  function RunRoom(r: Room, es: seq<Event>): Room
    decreases |es|
  {
    if es == [] then r else RunRoom(DoEvent(r, es[0]), es[1..])
  }

  ghost predicate ReachableRoom(r: Room) {
    exists keep: nat, es :: r == RunRoom(EmptyRoom(keep), es)
  }

  // --- what every state keeps ---

  ghost predicate Disjoint(r: Room) {
    && r.inbox !! r.boxes.processed !! r.boxes.ignored !! r.boxes.failed !! r.expunged
  }

  /** Every mail ever delivered is in exactly one place. */
  ghost predicate Conserved(r: Room) {
    && Disjoint(r)
    && r.inbox + r.boxes.processed + r.boxes.ignored + r.boxes.failed + r.expunged == r.mails.Keys
  }

  ghost predicate AllRight(db: Db, mails: map<MailId, Mail>, moves: Filing) {
    forall f, m :: m in moves.Get(f) ==> m in mails && FiledRight(db, mails[m].body, f)
  }

  function Moves(p: Poll): Filing {
    match p
    case Resting => NOTHING
    case Sorting(_, moves) => moves
    case Reading(_, _, moves) => moves
    case Moving(moves) => moves
  }

  ghost predicate FilingInv(r: Room) {
    && AllRight(r.core.db, r.mails, r.boxes)
    && AllRight(r.core.db, r.mails, Moves(r.poll))
  }

  /** Only processed or ignored mail older than the retention is ever flagged or
      removed. */
  ghost predicate RetentionInv(r: Room) {
    && r.deleted <= r.boxes.processed + r.boxes.ignored + r.expunged
    && r.expunged <= r.deleted
    && (forall m :: m in r.deleted && m in r.mails ==>
        r.mails[m].date < r.now - r.keep && Verdict(r.mails[m].body) != Failed)
  }

  /** The poller's task is working on the documents of the mail being read. */
  ghost predicate ReadingInv(r: Room) {
    && (Poller in r.core.tasks ==> r.poll.Reading?)
    && (r.poll.Reading? ==>
          && r.poll.mail in r.mails
          && r.mails[r.poll.mail].body.Payloads?
          && Docs(r.mails[r.poll.mail].body) != []
          && (Poller in r.core.tasks ==>
                var t := r.core.tasks[Poller]; t.docs == Docs(r.mails[r.poll.mail].body) && !t.strict))
  }

  /** The messages a cycle still has to process. */
  function Todo(p: Poll): seq<MailId> {
    match p
    case Resting => []
    case Sorting(todo, _) => todo
    case Reading(m, todo, _) => [m] + todo
    case Moving(_) => []
  }

  ghost predicate OffLists(moves: Filing, m: MailId) {
    forall f :: m !in moves.Get(f)
  }

  /** A cycle works on mails of INBOX only, each of them once: it is still to be
      processed or on one move list. */
  ghost predicate WorkInv(inbox: set<MailId>, p: Poll) {
    var todo, moves := Todo(p), Moves(p);
    && Distinct(todo)
    && (forall m :: m in todo ==> m in inbox && OffLists(moves, m))
    && (forall f, m :: m in moves.Get(f) ==> m in inbox)
    && (forall f, g, m :: m in moves.Get(f) && m in moves.Get(g) ==> f == g)
  }

  ghost predicate RoomInv(r: Room) {
    Inv(r.core) && Conserved(r) && FilingInv(r) && RetentionInv(r) && ReadingInv(r) && WorkInv(r.inbox, r.poll)
  }

  // --- core steps under the mailbox ---

  lemma CoreGrows(r: Room, a: Action)
    requires RoomInv(r)
    ensures var r' := r.(core := Do(r.core, a)); Inv(r'.core) && FilingInv(r')
  {
    StepKeepsInv(r.core, a);
    RightGrows(r.core.db, Do(r.core, a).db, r.mails, r.boxes);
    RightGrows(r.core.db, Do(r.core, a).db, r.mails, Moves(r.poll));
  }

  lemma RightGrows(db: Db, db': Db, mails: map<MailId, Mail>, moves: Filing)
    requires db.reports <= db'.reports && db.tls <= db'.tls && db.forensic <= db'.forensic
    requires AllRight(db, mails, moves)
    ensures AllRight(db', mails, moves)
  {
    forall f, m | m in moves.Get(f) ensures m in mails && FiledRight(db', mails[m].body, f) {
      var docs := Docs(mails[m].body);
      forall j | 0 <= j < |docs| && docs[j].Parses() && f == Processed ensures Stored(db', docs[j]) {
        StoredGrows(db, db', docs[j]);
      }
    }
  }

  lemma StepKeepsDocs(s: State, a: Action, tid: Tid)
    requires Inv(s) && tid in s.tasks && tid in Do(s, a).tasks
    ensures Do(s, a).tasks[tid].docs == s.tasks[tid].docs && Do(s, a).tasks[tid].strict == s.tasks[tid].strict
  {
    if a.Work? && a.tid == tid {
      if s.tasks[tid].emitting.None? { WorkStores(s, tid, a.effect); }
    } else {
      StepSparesTask(s, a, tid);
    }
  }

  lemma CoreActionKeepsPoller(s: State, a: Action)
    requires Inv(s) && CoreAction(a)
    ensures Poller in Do(s, a).tasks ==> Poller in s.tasks
  {
    if a.Work? && a.tid in s.tasks && s.tasks[a.tid].emitting.None? { WorkOnDocSteps(s, a.tid, a.effect); }
  }

  lemma CoreKeepsRoom(r: Room, a: Action)
    requires RoomInv(r) && CoreAction(a)
    ensures RoomInv(r.(core := Do(r.core, a)))
  {
    CoreGrows(r, a);
    CoreActionKeepsPoller(r.core, a);
    if Poller in Do(r.core, a).tasks { StepKeepsDocs(r.core, a, Poller); }
  }

  // --- filing ---

  lemma {:induction false} CountZero(docs: seq<Doc>, n: nat)
    requires n <= |docs|
    ensures CountParsed(docs, n) == 0 <==> forall j :: 0 <= j < n ==> !docs[j].Parses()
    ensures CountParsed(docs, n) <= n
  {
    if n == 0 {
    } else {
      CountZero(docs, n - 1);
    }
  }

  /** The counters of a finished task lead to the verdict the content demands. */
  lemma OutcomeIsVerdict(db: Db, t: Task, b: Body)
    requires TaskInv(db, t) && t.next == |t.docs| && t.docs == Docs(b) && b.Payloads? && Docs(b) != []
    ensures FiledRight(db, b, Outcome(t.stored, t.parseErrs))
  {
    CountZero(t.docs, |t.docs|);
  }

  lemma AddRight(db: Db, mails: map<MailId, Mail>, moves: Filing, f: Folder, m: MailId)
    requires AllRight(db, mails, moves) && m in mails && FiledRight(db, mails[m].body, f)
    ensures AllRight(db, mails, moves.Add(f, m))
  {
    forall g, k | k in moves.Add(f, m).Get(g) ensures k in mails && FiledRight(db, mails[k].body, g) {
      assert k in moves.Get(g) || (k == m && g == f);
    }
  }

  lemma FirstIsApart(m: MailId, rest: seq<MailId>)
    requires Distinct([m] + rest)
    ensures m !in rest && Distinct(rest)
  {
    var todo := [m] + rest;
    assert forall i :: 0 <= i < |rest| ==> rest[i] == todo[i + 1];
    assert todo[0] == m;
  }

  /** Taking the first mail off the list, to read it or to leave it. */
  lemma TakeKeepsWork(inbox: set<MailId>, p: Poll, m: MailId, rest: seq<MailId>)
    requires WorkInv(inbox, p) && Todo(p) == [m] + rest
    ensures m in inbox && m !in rest && OffLists(Moves(p), m)
    ensures WorkInv(inbox, Reading(m, rest, Moves(p))) && WorkInv(inbox, Sorting(rest, Moves(p)))
  {
    FirstIsApart(m, rest);
    var todo := [m] + rest;
    assert m in todo;
    assert forall k :: k in rest ==> k in todo;
  }

  /** Putting it on a move list. */
  lemma AddKeepsWork(inbox: set<MailId>, m: MailId, rest: seq<MailId>, moves: Filing, f: Folder)
    requires WorkInv(inbox, Sorting(rest, moves)) && m in inbox && m !in rest && OffLists(moves, m)
    ensures WorkInv(inbox, Sorting(rest, moves.Add(f, m)))
  {
    forall g, k | k in moves.Add(f, m).Get(g) ensures k in moves.Get(g) || (k == m && g == f) {}
  }

  lemma FetchKeepsWork(r: Room, order: seq<MailId>)
    requires Unseen(r, order)
    ensures WorkInv(r.inbox, Sorting(order, NOTHING))
  {
    forall m | m in order ensures m in r.inbox { assert m in Ids(order); }
  }

  lemma OpenKeepsRoom(r: Room)
    requires RoomInv(r)
    ensures RoomInv(DoOpen(r))
  {
    if r.poll.Sorting? && r.poll.todo != [] && r.poll.todo[0] in r.mails {
      var m := r.poll.todo[0];
      var b := r.mails[m].body;
      TakeKeepsWork(r.inbox, r.poll, m, r.poll.todo[1..]);
      AddKeepsWork(r.inbox, m, r.poll.todo[1..], r.poll.moves, if b.Payloads? then Ignored else Failed);
      if !b.Payloads? {
        AddRight(r.core.db, r.mails, r.poll.moves, Failed, m);
      } else if Docs(b) == [] {
        AddRight(r.core.db, r.mails, r.poll.moves, Ignored, m);
      } else {
        CoreGrows(r, Begin(Poller, Docs(b), false));
      }
    }
  }

  lemma CloseKeepsRoom(r: Room)
    requires RoomInv(r)
    ensures RoomInv(DoClose(r))
  {
    if r.poll.Reading? {
      if Poller !in r.core.tasks {
        TakeKeepsWork(r.inbox, r.poll, r.poll.mail, r.poll.todo);
      } else if Done(r.core.tasks[Poller]) {
        FilingKeepsRoom(r);
      }
    }
  }

  /** Closing a mail whose documents have all been tried. */
  lemma FilingKeepsRoom(r: Room)
    requires RoomInv(r) && r.poll.Reading? && Poller in r.core.tasks && Done(r.core.tasks[Poller])
    ensures RoomInv(DoClose(r))
  {
    var m, t := r.poll.mail, r.core.tasks[Poller];
    var f := Outcome(t.stored, t.parseErrs);
    OutcomeIsVerdict(r.core.db, t, r.mails[m].body);
    TakeKeepsWork(r.inbox, r.poll, m, r.poll.todo);
    AddKeepsWork(r.inbox, m, r.poll.todo, r.poll.moves, f);
    CoreGrows(r, Finish(Poller));
    hide Inv, AllRight, WorkInv, Outcome;
    AddStaysRight(r, Finish(Poller), f, m);
  }

  lemma AddStaysRight(r: Room, a: Action, f: Folder, m: MailId)
    requires RoomInv(r) && m in r.mails && FiledRight(r.core.db, r.mails[m].body, f)
    ensures AllRight(Do(r.core, a).db, r.mails, Moves(r.poll).Add(f, m))
  {
    StepKeepsInv(r.core, a);
    AddRight(r.core.db, r.mails, Moves(r.poll), f, m);
    RightGrows(r.core.db, Do(r.core, a).db, r.mails, Moves(r.poll).Add(f, m));
  }

  /** Filing listed mails keeps the rest, whatever the poller does next with lists
      that lost some of their mails. */
  lemma FileKeepsRoom(r: Room, f: Folder, ms: set<MailId>, next: Poll)
    requires RoomInv(r) && r.poll.Moving? && ms <= r.poll.moves.Get(f)
    requires (next.Resting? || next.Moving?) && forall g :: Moves(next).Get(g) <= r.poll.moves.Get(g)
    requires forall m :: m in ms ==> m !in Moves(next).Get(f)
    ensures RoomInv(File(r, f, ms).(poll := next))
  {
    var r' := File(r, f, ms).(poll := next);
    forall g, m | m in r'.boxes.Get(g) ensures m in r.mails && FiledRight(r.core.db, r.mails[m].body, g) {
      assert m in r.boxes.Get(g) || (g == f && m in r.poll.moves.Get(f));
    }
    forall g, m | m in Moves(r'.poll).Get(g) ensures m in r.mails && FiledRight(r.core.db, r.mails[m].body, g) {
      assert m in r.poll.moves.Get(g);
    }
    forall g, m | m in Moves(next).Get(g) ensures m in r'.inbox {
      assert m in r.poll.moves.Get(g);
      assert m in ms ==> g == f;
    }
  }

  lemma MoveKeepsRoom(r: Room, f: Folder)
    requires RoomInv(r) && r.poll.Moving?
    ensures RoomInv(DoEvent(r, Move(f)))
  {
    FileKeepsRoom(r, f, r.poll.moves.Get(f) * r.inbox, Moving(r.poll.moves.Clear(f)));
  }

  lemma FilesMove(r: Room, boxes: Filing)
    requires FilingInv(r) && forall f :: boxes.Get(f) <= r.boxes.Get(f)
    ensures AllRight(r.core.db, r.mails, boxes)
  {
  }

  lemma RequeueKeepsRoom(r: Room, ms: set<MailId>)
    requires RoomInv(r)
    ensures RoomInv(DoEvent(r, Requeue(ms)))
  {
    FilesMove(r, DoEvent(r, Requeue(ms)).boxes);
  }

  lemma FlagKeepsRoom(r: Room, f: Folder, ms: set<MailId>)
    requires RoomInv(r)
    ensures RoomInv(DoEvent(r, Flag(f, ms)))
  {
    forall m | m in ms && m in r.boxes.Get(f) ensures Verdict(r.mails[m].body) == f {
      assert FiledRight(r.core.db, r.mails[m].body, f);
    }
  }

  lemma ExpungeKeepsRoom(r: Room, f: Folder, part: set<MailId>)
    requires RoomInv(r)
    ensures RoomInv(DoEvent(r, Expunge(f, part)))
  {
    FilesMove(r, DoEvent(r, Expunge(f, part)).boxes);
  }

  lemma DeliverKeepsRoom(r: Room, m: MailId, mail: Mail)
    requires RoomInv(r)
    ensures RoomInv(DoEvent(r, Deliver(m, mail)))
  {
    var r' := DoEvent(r, Deliver(m, mail));
    if m !in r.mails {
      forall f, k | k in r.boxes.Get(f) || k in Moves(r.poll).Get(f)
        ensures k in r'.mails && r'.mails[k] == r.mails[k]
      {
      }
    }
  }

  lemma CrashKeepsRoom(r: Room)
    requires RoomInv(r)
    ensures RoomInv(DoEvent(r, CrashAll))
  {
    CoreGrows(r, Crash);
    assert AllRight(Do(r.core, Crash).db, r.mails, NOTHING);
  }

  lemma EventKeepsRoom(r: Room, e: Event)
    requires RoomInv(r)
    ensures RoomInv(DoEvent(r, e))
  {
    match e {
      case Deliver(m, mail) => DeliverKeepsRoom(r, m, mail);
      case Step(a) => if CoreAction(a) { CoreKeepsRoom(r, a); }
      case Fetch(order) => if Unseen(r, order) { FetchKeepsWork(r, order); }
      case Open => OpenKeepsRoom(r);
      case Close => CloseKeepsRoom(r);
      case Move(f) => if r.poll.Moving? { MoveKeepsRoom(r, f); }
      case MovePart(f, part) =>
        if r.poll.Moving? { FileKeepsRoom(r, f, part * r.poll.moves.Get(f) * r.inbox, Resting); }
      case CrashAll => CrashKeepsRoom(r);
      case Requeue(ms) => RequeueKeepsRoom(r, ms);
      case Flag(f, ms) => FlagKeepsRoom(r, f, ms);
      case Expunge(f, part) => ExpungeKeepsRoom(r, f, part);
      case _ =>
    }
  }

  lemma {:induction false} RunKeepsRoom(r: Room, es: seq<Event>)
    requires RoomInv(r)
    ensures RoomInv(RunRoom(r, es))
    decreases |es|
  {
    if es == [] {
    } else {
      EventKeepsRoom(r, es[0]);
      RunKeepsRoom(DoEvent(r, es[0]), es[1..]);
    }
  }

  lemma ReachableRoomInv(r: Room)
    requires ReachableRoom(r)
    ensures RoomInv(r)
  {
    var keep: nat, es :| r == RunRoom(EmptyRoom(keep), es);
    InitInv();
    RunKeepsRoom(EmptyRoom(keep), es);
  }

  // --- theorems ---

  /** Every delivered mail is in exactly one of INBOX and the three folders,
      unless retention removed it, which happens only to processed or ignored
      mail older than the retention period. */
  lemma MailConservation(r: Room, m: MailId)
    requires ReachableRoom(r) && m in r.mails
    ensures Disjoint(r)
    ensures m in r.inbox || m in r.boxes.processed || m in r.boxes.ignored || m in r.boxes.failed || m in r.expunged
    ensures m in r.expunged ==> r.mails[m].date < r.now - r.keep && Verdict(r.mails[m].body) in {Processed, Ignored}
  {
    ReachableRoomInv(r);
    assert m in r.mails.Keys;
  }

  /** Whatever the interleaving, the faults and the crashes, a filed mail sits in
      the folder its content demands. Processed: every document that parses is in
      the database, and there is one. Failed: no document parses. Ignored: there
      is no document. */
  lemma FilingSafety(r: Room, m: MailId)
    requires ReachableRoom(r) && m in r.mails
    ensures var docs := Docs(r.mails[m].body);
      && (m in r.boxes.processed ==>
            AllStored(r.core.db, docs) && exists j :: 0 <= j < |docs| && docs[j].Parses() && Stored(r.core.db, docs[j]))
      && (m in r.boxes.failed ==> forall j :: 0 <= j < |docs| ==> !docs[j].Parses())
      && (m in r.boxes.ignored ==> r.mails[m].body == Payloads([], [], []))
  {
    ReachableRoomInv(r);
    var b := r.mails[m].body;
    if m in r.boxes.Get(Processed) {
      assert FiledRight(r.core.db, b, Processed);
      var j :| 0 <= j < |Docs(b)| && Docs(b)[j].Parses();
      assert Stored(r.core.db, Docs(b)[j]);
    }
    if m in r.boxes.Get(Failed) { assert FiledRight(r.core.db, b, Failed); }
    if m in r.boxes.Get(Ignored) {
      assert FiledRight(r.core.db, b, Ignored);
      assert |Docs(b)| == |b.aggregates| + |b.tls| + |b.forensic|;
    }
  }

  // --- mail that is not filed ---

  function Waiting(p: Poll): seq<MailId> {
    if p.Sorting? || p.Reading? then p.todo else []
  }

  /** The mail is in INBOX and no cycle at work will file it: it is not waiting to
      be processed, it is on no move list, and if it is the mail being read, the
      poller's work on it has failed. */
  ghost predicate LeftAlone(r: Room, m: MailId) {
    && m in r.inbox && m !in Waiting(r.poll)
    && OffLists(Moves(r.poll), m)
    && (r.poll.Reading? && r.poll.mail == m ==> Poller !in r.core.tasks)
  }

  /** No event of the run starts a cycle that fetches m. */
  predicate NotListed(r: Room, es: seq<Event>, m: MailId)
    decreases |es|
  {
    es == [] || (!Lists(r, es[0], m) && NotListed(DoEvent(r, es[0]), es[1..], m))
  }

  lemma EventLeavesAlone(r: Room, e: Event, m: MailId)
    requires RoomInv(r) && LeftAlone(r, m) && !Lists(r, e, m)
    ensures LeftAlone(DoEvent(r, e), m)
    ensures m in DoEvent(r, e).seen ==> m in r.seen || e == Read(m)
  {
    match e {
      case Step(a) => if CoreAction(a) { CoreActionKeepsPoller(r.core, a); }
      case Open => if r.poll.Sorting? && r.poll.todo != [] { OpenLeavesAlone(r, m); }
      case Close => if r.poll.Reading? { CloseLeavesAlone(r, m); }
      case Move(f) => if r.poll.Moving? { ClearMisses(r.poll.moves, f, m); }
      case _ =>
    }
  }

  lemma AddMisses(moves: Filing, k: MailId, m: MailId)
    requires k != m && OffLists(moves, m)
    ensures forall f :: OffLists(moves.Add(f, k), m)
  {
    forall f, g ensures m !in moves.Add(f, k).Get(g) {
      assert m !in moves.Get(g);
    }
  }

  lemma ClearMisses(moves: Filing, f: Folder, m: MailId)
    requires OffLists(moves, m)
    ensures OffLists(moves.Clear(f), m)
  {
    forall g ensures m !in moves.Clear(f).Get(g) {
      assert m !in moves.Get(g);
    }
  }

  lemma OpenLeavesAlone(r: Room, m: MailId)
    requires LeftAlone(r, m) && r.poll.Sorting? && r.poll.todo != []
    ensures LeftAlone(DoOpen(r), m) && DoOpen(r).seen == r.seen
  {
    assert r.poll.todo[0] in r.poll.todo && m != r.poll.todo[0];
    assert forall k :: k in r.poll.todo[1..] ==> k in r.poll.todo;
    AddMisses(r.poll.moves, r.poll.todo[0], m);
  }

  lemma CloseLeavesAlone(r: Room, m: MailId)
    requires LeftAlone(r, m) && r.poll.Reading?
    ensures LeftAlone(DoClose(r), m) && DoClose(r).seen == r.seen
  {
    if r.poll.mail != m { AddMisses(r.poll.moves, r.poll.mail, m); }
  }

  lemma {:induction false} RunLeavesAlone(r: Room, es: seq<Event>, m: MailId)
    requires RoomInv(r) && LeftAlone(r, m) && NotListed(r, es, m)
    ensures RoomInv(RunRoom(r, es)) && LeftAlone(RunRoom(r, es), m)
    ensures m in RunRoom(r, es).seen ==> m in r.seen || Read(m) in es
    decreases |es|
  {
    if es == [] {
    } else {
      EventLeavesAlone(r, es[0], m);
      EventKeepsRoom(r, es[0]);
      RunLeavesAlone(DoEvent(r, es[0]), es[1..], m);
    }
  }

  /** What the service owes a mail it could not deal with: it is in INBOX and in no
      folder, on no list, and the next cycle that starts fetches it if it is unseen. */
  ghost predicate Kept(r: Room, m: MailId) {
    && LeftAlone(r, m)
    && (forall f :: m !in r.boxes.Get(f)) && m !in r.expunged
    && (forall order :: r.poll.Resting? && Unseen(r, order) && m !in r.seen ==> Lists(r, Fetch(order), m))
  }

  lemma LeftAloneIsKept(r: Room, m: MailId)
    requires RoomInv(r) && LeftAlone(r, m)
    ensures Kept(r, m)
  {
    forall order | r.poll.Resting? && Unseen(r, order) && m !in r.seen ensures Lists(r, Fetch(order), m) {
      assert m in Ids(order);
    }
  }

  /** When the poller's store call for a document fails, its work on the mail is
      over. It is over in no other way: an unparsable document, a duplicate and a
      failing observer are passed over. */
  lemma WorkEndsIff(s: State, e: Effect)
    requires Inv(s) && Poller in s.tasks && !s.tasks[Poller].strict
    ensures Poller !in Do(s, Work(Poller, e)).tasks <==> StoreFails(s, s.tasks[Poller], e)
  {
  }

  /** From opening a mail to closing it, the poller's task disappears in no other
      way: if it is gone, one of the events was a failing store call of it. */
  lemma {:induction false} WorkEndsByFailure(r: Room, es: seq<Event>) returns (k: nat, e: Effect)
    requires RoomInv(r) && r.poll.Reading? && Poller in r.core.tasks
    requires Close !in es && CrashAll !in es
    requires Poller !in RunRoom(r, es).core.tasks
    ensures k < |es| && es[k] == Step(Work(Poller, e)) && RunRoom(r, es[..k]).poll == r.poll
    ensures var s := RunRoom(r, es[..k]).core; Poller in s.tasks && StoreFails(s, s.tasks[Poller], e)
    decreases |es|
  {
    var r1 := DoEvent(r, es[0]);
    EventKeepsRoom(r, es[0]);
    ReadingGoesOn(r, es[0]);
    assert Close !in es[1..] && CrashAll !in es[1..];
    hide RoomInv, DoEvent, StoreFails, RunRoom;
    RunRoomOpens(r, es);
    if Poller in r1.core.tasks {
      var later;
      later, e := WorkEndsByFailure(r1, es[1..]);
      RunRoomShift(r, es, later);
      k := later + 1;
    } else {
      e := LastStep(r, es[0]);
      k := 0;
    }
  }

  lemma RunRoomOpens(r: Room, es: seq<Event>)
    requires es != []
    ensures RunRoom(r, es) == RunRoom(DoEvent(r, es[0]), es[1..]) && RunRoom(r, es[..0]) == r
  {
    assert es[..0] == [];
  }

  lemma RunRoomShift(r: Room, es: seq<Event>, k: nat)
    requires k + 1 < |es|
    ensures RunRoom(r, es[..k + 1]) == RunRoom(DoEvent(r, es[0]), es[1..][..k]) && es[1..][k] == es[k + 1]
  {
    assert es[..k + 1][0] == es[0] && es[..k + 1][1..] == es[1..][..k];
  }

  lemma ReadingGoesOn(r: Room, ev: Event)
    requires r.poll.Reading? && ev != Close && ev != CrashAll
    ensures DoEvent(r, ev).poll == r.poll
  {
  }

  /** The event that made the poller's task disappear. */
  lemma LastStep(r: Room, ev: Event) returns (e: Effect)
    requires RoomInv(r) && r.poll.Reading? && Poller in r.core.tasks && ev != Close && ev != CrashAll
    requires Poller !in DoEvent(r, ev).core.tasks
    ensures ev == Step(Work(Poller, e)) && StoreFails(r.core, r.core.tasks[Poller], e)
  {
    e := DbError;
    match ev {
      case Step(a) =>
        if a.Work? && a.tid == Poller {
          e := a.effect;
          WorkEndsIff(r.core, e);
        } else if CoreAction(a) {
          OthersSparePoller(r.core, a);
        }
      case _ =>
    }
  }

  lemma OthersSparePoller(s: State, a: Action)
    requires CoreAction(a) && Poller in s.tasks && !(a.Work? && a.tid == Poller)
    ensures Poller in Do(s, a).tasks
  {
    if a.Work? && a.tid in s.tasks && s.tasks[a.tid].emitting.None? {
      WorkOnDocSteps(s, a.tid, a.effect);
    }
  }

  /** The next step of the task is a store call, and effect e makes it fail. (An
      insert can only take effect under a serial that is not taken.) */
  predicate StoreFails(s: State, t: Task, e: Effect) {
    && t.emitting.None? && t.next < |t.docs| && t.docs[t.next].Parses() && !e.Ok?
    && (t.docs[t.next].Aggregate? && e.CommitUnacked? ==>
          HasKey(s.db.reports, t.docs[t.next].rep.value.key) || Fresh(s.db.reports, e.serial))
  }

  /** A database error always leaves the mail in INBOX, off every list and unseen:
      from the failing call on, through any further events, until a later cycle
      fetches it again, it stays there, and it is unseen unless it was seen before
      or a person reads it. */
  lemma RetryLeavesMail(r: Room, e: Effect, es: seq<Event>)
    requires ReachableRoom(r) && r.poll.Reading? && Poller in r.core.tasks
    requires StoreFails(r.core, r.core.tasks[Poller], e)
    requires NotListed(DoEvent(r, Step(Work(Poller, e))), es, r.poll.mail)
    ensures var m := r.poll.mail;
            var r' := RunRoom(DoEvent(r, Step(Work(Poller, e))), es);
      && Kept(r', m)
      && (m in r'.seen ==> m in r.seen || Read(m) in es)
  {
    var m := r.poll.mail;
    var failing := Step(Work(Poller, e));
    var r1 := DoEvent(r, failing);
    ReachableRoomInv(r);
    EventKeepsRoom(r, failing);
    WorkEndsIff(r.core, e);
    TakeKeepsWork(r.inbox, r.poll, m, r.poll.todo);
    RunLeavesAlone(r1, es, m);
    LeftAloneIsKept(RunRoom(r1, es), m);
  }

  lemma InterruptedIsAlone(r: Room, e: Event, m: MailId)
    requires RoomInv(r) && (e.CrashAll? || (e.MovePart? && r.poll.Moving?)) && m in DoEvent(r, e).inbox
    ensures LeftAlone(DoEvent(r, e), m) && DoEvent(r, e).seen == r.seen
  {
    hide Inv, Conserved, FilingInv, RetentionInv, ReadingInv;
  }

  /** The same holds for every mail that is in INBOX when the process dies or a
      MOVE fails, however far the cycle had come. */
  lemma InterruptionLeavesMail(r: Room, e: Event, m: MailId, es: seq<Event>)
    requires ReachableRoom(r) && (e.CrashAll? || (e.MovePart? && r.poll.Moving?))
    requires m in DoEvent(r, e).inbox && NotListed(DoEvent(r, e), es, m)
    ensures var r' := RunRoom(DoEvent(r, e), es);
      && Kept(r', m)
      && (m in r'.seen ==> m in r.seen || Read(m) in es)
  {
    var r1 := DoEvent(r, e);
    ReachableRoomInv(r);
    EventKeepsRoom(r, e);
    InterruptedIsAlone(r, e, m);
    hide *;
    RunLeavesAlone(r1, es, m);
    LeftAloneIsKept(RunRoom(r1, es), m);
  }

  /** Only a person reading it marks a mail as seen: over a whole run a mail that
      nobody opened is unseen. */
  lemma {:induction false} UnreadIsUnseen(r: Room, es: seq<Event>, m: MailId)
    requires Read(m) !in es && m !in r.seen
    ensures m !in RunRoom(r, es).seen
    decreases |es|
  {
    if es == [] {
    } else {
      UnreadIsUnseen(DoEvent(r, es[0]), es[1..], m);
    }
  }
}
