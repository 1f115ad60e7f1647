/**
 * The courier's lifetime lock and the reclaiming of dead couriers' sockets, as
 * one system call at a time. Couriers start, bind, record, leave or are killed
 * at any point; someone may remove or replace the lock file; any number of
 * reclaimers run at once. Inode numbers are not reused.
 */
module SocketReclaim {
  import opened Collections

  type Pid = nat
  type Inode = nat

  datatype Stage =
    | Opened | Locked | Bound | Serving
    | Failing     // the record was not written; lock closed, about to unlink
    | LateFailing // it was written, and the courier failed right after; same cleanup
    | Leaving  // saw its own socket at the path, about to unlink
    | Left | Gone
    | ReclaimOpened | ReclaimLocked | ReclaimCurrent | ReclaimSaw | ReclaimMatched
    | Reclaimed(proven: bool)

  /** A process: how far it got, the lock inode it opened, and the socket inode it
      bound (a courier) or saw (a reclaimer). */
  datatype Proc = Proc(stage: Stage, lock: Inode, sock: Inode)

  datatype World = World(
    lockPath: Option<Inode>,
    nextLock: Inode,
    holder: map<Inode, Pid>,   // who has the exclusive flock on each lock inode
    record: map<Inode, Inode>, // the socket each lock inode records
    sockPath: Option<Inode>,
    nextSock: Inode,
    procs: map<Pid, Proc>)

  const Start := World(None, 0, map[], map[], None, 0, map[])

  datatype Act =
    | CourierOpens | CourierLocks | CourierBinds
    | CourierRecords
    | CourierRecordFails(truncated: bool)
    | CourierFailsLate
    | CourierCleansUp | CourierStops | CourierUnlinks | CourierCloses
    | Dies
    | ReclaimOpens | ReclaimLocks | ReclaimChecksPath | ReclaimLooks | ReclaimCompares | ReclaimUnlinks

  datatype Step = LockFileRemoved | LockFileReplaced | Runs(pid: Pid, act: Act)

  predicate Ready(w: World, p: Pid, a: Act) {
    if a.CourierOpens? || a.ReclaimOpens? then p !in w.procs
    else
      && p in w.procs
      && match a
         case CourierLocks => w.procs[p].stage.Opened?
         case CourierBinds => w.procs[p].stage.Locked?
         case CourierRecords => w.procs[p].stage.Bound? && w.sockPath.Some?
         case CourierRecordFails(_) => w.procs[p].stage.Bound?
         case CourierFailsLate => w.procs[p].stage.Bound? && w.sockPath.Some?
         case CourierCleansUp => w.procs[p].stage.Failing? || w.procs[p].stage.LateFailing?
         case CourierStops => w.procs[p].stage.Serving?
         case CourierUnlinks => w.procs[p].stage.Leaving?
         case CourierCloses => w.procs[p].stage.Left?
         case Dies => true
         case ReclaimLocks => w.procs[p].stage.ReclaimOpened?
         case ReclaimChecksPath => w.procs[p].stage.ReclaimLocked?
         case ReclaimLooks => w.procs[p].stage.ReclaimCurrent?
         case ReclaimCompares => w.procs[p].stage.ReclaimSaw?
         case ReclaimUnlinks => w.procs[p].stage.ReclaimMatched?
         case _ => false
  }

  function Become(w: World, p: Pid, proc: Proc): World { w.(procs := w.procs[p := proc]) }

  /** Closing a descriptor, or dying, drops the flock. */
  function Released(w: World, p: Pid): World {
    w.(holder := map l | l in w.holder && w.holder[l] != p :: w.holder[l])
  }

  function CourierAct(w: World, p: Pid, a: Act): World
    requires p in w.procs && Ready(w, p, a)
  {
    var me := w.procs[p];
    match a
    case CourierLocks =>
      if me.lock in w.holder then Become(w, p, me.(stage := Gone))
      else Become(w, p, me.(stage := Locked)).(holder := w.holder[me.lock := p])
    case CourierBinds =>
      if w.sockPath.Some? then Released(Become(w, p, me.(stage := Gone)), p)
      else Become(w, p, me.(stage := Bound, sock := w.nextSock)).(sockPath := Some(w.nextSock), nextSock := w.nextSock + 1)
    case CourierRecords => Become(w, p, me.(stage := Serving)).(record := w.record[me.lock := w.sockPath.value])
    case CourierRecordFails(truncated) =>
      Released(Become(w, p, me.(stage := Failing)), p).(record := if truncated then w.record - {me.lock} else w.record)
    case CourierFailsLate =>
      Released(Become(w, p, me.(stage := LateFailing)), p).(record := w.record[me.lock := w.sockPath.value])
    case CourierCleansUp => Become(w, p, me.(stage := Gone)).(sockPath := None)
    case CourierStops => Become(w, p, me.(stage := if w.sockPath == Some(me.sock) then Leaving else Left))
    case CourierUnlinks => Become(w, p, me.(stage := Left)).(sockPath := None)
    case CourierCloses => Released(Become(w, p, me.(stage := Gone)), p)
    case Dies => Released(Become(w, p, me.(stage := Gone)), p)
    case _ => w
  }

  function ReclaimAct(w: World, p: Pid, a: Act): World
    requires p in w.procs && Ready(w, p, a)
  {
    var me := w.procs[p];
    match a
    case ReclaimLocks =>
      if me.lock in w.holder then Become(w, p, me.(stage := Reclaimed(false)))
      else Become(w, p, me.(stage := ReclaimLocked)).(holder := w.holder[me.lock := p])
    case ReclaimChecksPath =>
      if w.lockPath == Some(me.lock) then Become(w, p, me.(stage := ReclaimCurrent))
      else Released(Become(w, p, me.(stage := Reclaimed(false))), p)
    case ReclaimLooks =>
      if w.sockPath.Some? then Become(w, p, me.(stage := ReclaimSaw, sock := w.sockPath.value))
      else Released(Become(w, p, me.(stage := Reclaimed(true))), p)
    case ReclaimCompares =>
      if me.lock in w.record && w.record[me.lock] == me.sock then Become(w, p, me.(stage := ReclaimMatched))
      else Released(Become(w, p, me.(stage := Reclaimed(false))), p)
    case ReclaimUnlinks => Released(Become(w, p, me.(stage := Reclaimed(true))), p).(sockPath := None)
    case _ => w
  }

  /** A lock file that is missing is created by a courier, and means "nothing can be
      proven" to a reclaimer. */
  function OpenAct(w: World, p: Pid, a: Act): World {
    if a.CourierOpens? then
      if w.lockPath.Some? then Become(w, p, Proc(Opened, w.lockPath.value, 0))
      else Become(w, p, Proc(Opened, w.nextLock, 0)).(lockPath := Some(w.nextLock), nextLock := w.nextLock + 1)
    else if w.lockPath.Some? then Become(w, p, Proc(ReclaimOpened, w.lockPath.value, 0))
    else Become(w, p, Proc(Reclaimed(false), 0, 0))
  }

  predicate Enabled(w: World, s: Step) { s.Runs? ==> Ready(w, s.pid, s.act) }

  function Apply(w: World, s: Step): World
    requires Enabled(w, s)
  {
    match s
    case LockFileRemoved => w.(lockPath := None)
    case LockFileReplaced => w.(lockPath := Some(w.nextLock), nextLock := w.nextLock + 1)
    case Runs(p, a) =>
      if p !in w.procs then OpenAct(w, p, a)
      else if a.ReclaimLocks? || a.ReclaimChecksPath? || a.ReclaimLooks? || a.ReclaimCompares? || a.ReclaimUnlinks?
        then ReclaimAct(w, p, a)
      else CourierAct(w, p, a)
  }

  /** A courier that failed late takes down the path while another courier lives, or
      while a reclaimer is about to take it down. */
  ghost predicate Strays(w: World, s: Step) {
    && s.Runs? && s.act.CourierCleansUp? && s.pid in w.procs && w.procs[s.pid].stage.LateFailing? && w.sockPath.Some?
    && exists q :: q in w.procs && (Living(w.procs[q]) || Sees(w, w.procs[q]))
  }

  ghost predicate Strayed(w: World, steps: seq<Step>)
    decreases |steps|
  {
    steps != [] && Enabled(w, steps[0]) && (Strays(w, steps[0]) || Strayed(Apply(w, steps[0]), steps[1..]))
  }

  predicate Reaches(w: World, steps: seq<Step>, end: World)
    decreases |steps|
  {
    if steps == [] then w == end else Enabled(w, steps[0]) && Reaches(Apply(w, steps[0]), steps[1..], end)
  }

  // -- what every step keeps -------------------------------------------------------------------------

  predicate HasLock(proc: Proc) {
    proc.stage.Locked? || proc.stage.Bound? || proc.stage.Serving? || proc.stage.Leaving? || proc.stage.Left?
    || proc.stage.ReclaimLocked? || proc.stage.ReclaimCurrent? || proc.stage.ReclaimSaw? || proc.stage.ReclaimMatched?
  }

  /** A courier whose socket is bound and not yet taken down. */
  predicate Living(proc: Proc) { proc.stage.Bound? || proc.stage.Serving? || proc.stage.Failing? || proc.stage.Leaving? }

  predicate HasSock(proc: Proc) { Living(proc) || proc.stage.LateFailing? }

  /** Every bound socket has its own inode. */
  ghost predicate Socks(w: World) {
    && (forall p :: p in w.procs && HasSock(w.procs[p]) ==> w.procs[p].sock < w.nextSock)
    && (forall p, q :: p in w.procs && q in w.procs && p != q && HasSock(w.procs[p]) && HasSock(w.procs[q]) ==>
          w.procs[p].sock != w.procs[q].sock)
  }

  ghost predicate Locks(w: World) {
    forall p :: p in w.procs && HasLock(w.procs[p]) ==> w.procs[p].lock in w.holder && w.holder[w.procs[p].lock] == p
  }

  /** A living courier's socket is the one at the path. */
  ghost predicate Sockets(w: World) {
    && (forall p :: p in w.procs && Living(w.procs[p]) ==> w.sockPath == Some(w.procs[p].sock))
    && (forall p, q :: p in w.procs && q in w.procs && Living(w.procs[p]) && Living(w.procs[q]) ==> p == q)
    && (w.sockPath.Some? ==> w.sockPath.value < w.nextSock)
  }

  /** A record names one socket only, and if its courier still lives, that courier
      recorded it under the lock it still holds. */
  ghost predicate Records(w: World) {
    && (forall l :: l in w.record ==> w.record[l] < w.nextSock)
    && (forall l, m :: l in w.record && m in w.record && w.record[l] == w.record[m] ==> l == m)
    && (forall p, l :: p in w.procs && Living(w.procs[p]) && l in w.record && w.record[l] == w.procs[p].sock ==>
          !w.procs[p].stage.Bound? && !w.procs[p].stage.Failing? && w.procs[p].lock == l)
  }

  predicate Watching(proc: Proc) { proc.stage.ReclaimSaw? || proc.stage.ReclaimMatched? }

  /** A reclaimer looking at exactly what its lock records. */
  predicate Sees(w: World, proc: Proc) {
    Watching(proc) && proc.lock in w.record && w.record[proc.lock] == proc.sock
  }

  /** While a reclaimer looks at the recorded socket, it stays at the path. */
  ghost predicate Watched(w: World) {
    && (forall p :: p in w.procs && Sees(w, w.procs[p]) ==> w.sockPath == Some(w.procs[p].sock))
    && (forall p :: p in w.procs && w.procs[p].stage.ReclaimMatched? ==> Sees(w, w.procs[p]))
  }

  ghost predicate Inv(w: World) { Locks(w) && Socks(w) && Sockets(w) && Records(w) && Watched(w) }

  /** One process moves on, keeping its flock if it needs it; sockets, records and
      every other process are untouched. */
  ghost predicate Moved(w: World, after: World, p: Pid) {
    && p in after.procs && after.procs == w.procs[p := after.procs[p]]
    && after.record == w.record && after.sockPath == w.sockPath && after.nextSock == w.nextSock
    && (forall l :: l in w.holder && w.holder[l] != p ==> l in after.holder && after.holder[l] == w.holder[l])
    && (HasLock(after.procs[p]) ==> after.procs[p].lock in after.holder && after.holder[after.procs[p].lock] == p)
    && (Living(after.procs[p]) ==>
          p in w.procs && w.procs[p].stage.Serving? && after.procs[p].stage.Leaving?
          && after.procs[p].lock == w.procs[p].lock && after.procs[p].sock == w.procs[p].sock)
    && !after.procs[p].stage.LateFailing?
    && (Sees(after, after.procs[p]) ==> after.sockPath == Some(after.procs[p].sock))
    && (after.procs[p].stage.ReclaimMatched? ==> Sees(after, after.procs[p]))
  }

  lemma MovedLocks(w: World, after: World, p: Pid)
    requires Locks(w) && Moved(w, after, p)
    ensures Locks(after)
  {
    forall q | q in after.procs && HasLock(after.procs[q])
      ensures after.procs[q].lock in after.holder && after.holder[after.procs[q].lock] == q
    {
      if q != p { assert w.holder[w.procs[q].lock] == q; }
    }
  }

  lemma MovedSockets(w: World, after: World, p: Pid)
    requires Socks(w) && Sockets(w) && Moved(w, after, p)
    ensures Socks(after) && Sockets(after)
  {
  }

  lemma MovedRecords(w: World, after: World, p: Pid)
    requires Records(w) && Watched(w) && Moved(w, after, p)
    ensures Records(after) && Watched(after)
  {
  }

  lemma OneMoves(w: World, after: World, p: Pid)
    requires Inv(w) && Moved(w, after, p)
    ensures Inv(after)
  {
    MovedLocks(w, after, p);
    MovedSockets(w, after, p);
    MovedRecords(w, after, p);
  }

  lemma StepCourierOpens(w: World, p: Pid)
    requires Inv(w) && p !in w.procs
    ensures Inv(OpenAct(w, p, CourierOpens))
  {
    OneMoves(w, OpenAct(w, p, CourierOpens), p);
  }

  lemma StepReclaimOpens(w: World, p: Pid)
    requires Inv(w) && p !in w.procs
    ensures Inv(OpenAct(w, p, ReclaimOpens))
  {
    OneMoves(w, OpenAct(w, p, ReclaimOpens), p);
  }

  lemma StepCourier(w: World, p: Pid, a: Act)
    requires Inv(w) && p in w.procs && Ready(w, p, a)
    requires a.CourierLocks? || a.CourierStops? || a.CourierCloses? || a.Dies?
    ensures Inv(CourierAct(w, p, a))
  {
    OneMoves(w, CourierAct(w, p, a), p);
  }

  lemma BoundLocks(w: World, p: Pid)
    requires Inv(w) && p in w.procs && w.procs[p].stage.Locked? && w.sockPath.None?
    ensures Locks(CourierAct(w, p, CourierBinds))
    ensures Socks(CourierAct(w, p, CourierBinds)) && Sockets(CourierAct(w, p, CourierBinds))
  {
  }

  lemma BoundRecords(w: World, p: Pid)
    requires Inv(w) && p in w.procs && w.procs[p].stage.Locked? && w.sockPath.None?
    ensures Records(CourierAct(w, p, CourierBinds)) && Watched(CourierAct(w, p, CourierBinds))
  {
  }

  lemma StepBinds(w: World, p: Pid)
    requires Inv(w) && p in w.procs && Ready(w, p, CourierBinds)
    ensures Inv(CourierAct(w, p, CourierBinds))
  {
    var after := CourierAct(w, p, CourierBinds);
    if w.sockPath.Some? {
      OneMoves(w, after, p);
    } else {
      BoundLocks(w, p);
      BoundRecords(w, p);
    }
  }

  /** A bound courier writes its socket into its own lock's record. */
  ghost predicate Wrote(w: World, after: World, p: Pid) {
    && p in w.procs && w.procs[p].stage.Bound?
    && p in after.procs && after.procs == w.procs[p := after.procs[p]]
    && after.procs[p].lock == w.procs[p].lock && after.procs[p].sock == w.procs[p].sock
    && after.record == w.record[w.procs[p].lock := w.procs[p].sock]
    && after.sockPath == w.sockPath && after.nextSock == w.nextSock
    && after.procs[p].stage.Serving?
  }

  lemma WroteRecords(w: World, after: World, p: Pid)
    requires Socks(w) && Sockets(w) && Records(w) && Wrote(w, after, p)
    ensures Records(after)
  {
  }

  lemma WroteWatched(w: World, after: World, p: Pid)
    requires Locks(w) && Sockets(w) && Watched(w) && Wrote(w, after, p)
    ensures Watched(after)
  {
    forall q | q in after.procs && q != p && HasLock(after.procs[q]) ensures after.procs[q].lock != w.procs[p].lock {
      assert w.holder[w.procs[q].lock] == q;
    }
  }

  lemma StepRecords(w: World, p: Pid)
    requires Inv(w) && p in w.procs && Ready(w, p, CourierRecords)
    ensures Inv(CourierAct(w, p, CourierRecords))
  {
    var after := CourierAct(w, p, CourierRecords);
    assert Locks(after) && Socks(after) && Sockets(after);
    WroteRecords(w, after, p);
    WroteWatched(w, after, p);
  }

  /** A bound courier gives up its lock; its record is as it was, or gone. */
  ghost predicate GaveUp(w: World, after: World, p: Pid) {
    && p in w.procs && w.procs[p].stage.Bound? && after.procs == w.procs[p := w.procs[p].(stage := Failing)]
    && (after.record == w.record || after.record == w.record - {w.procs[p].lock})
    && after.sockPath == w.sockPath && after.nextSock == w.nextSock
  }

  lemma GaveUpRecords(w: World, after: World, p: Pid)
    requires Records(w) && GaveUp(w, after, p)
    ensures Records(after)
  {
  }

  lemma GaveUpWatched(w: World, after: World, p: Pid)
    requires Locks(w) && Watched(w) && GaveUp(w, after, p)
    ensures Watched(after)
  {
    forall q | q in after.procs && q != p && HasLock(after.procs[q]) ensures after.procs[q].lock != w.procs[p].lock {
      assert w.holder[w.procs[q].lock] == q;
    }
  }

  lemma StepRecordFails(w: World, p: Pid, truncated: bool)
    requires Inv(w) && p in w.procs && Ready(w, p, CourierRecordFails(truncated))
    ensures Inv(CourierAct(w, p, CourierRecordFails(truncated)))
  {
    var after := CourierAct(w, p, CourierRecordFails(truncated));
    assert Locks(after) && Socks(after) && Sockets(after);
    GaveUpRecords(w, after, p);
    GaveUpWatched(w, after, p);
  }

  lemma StepFailsLate(w: World, p: Pid)
    requires Inv(w) && p in w.procs && Ready(w, p, CourierFailsLate)
    ensures Inv(CourierAct(w, p, CourierFailsLate))
  {
    var me := w.procs[p];
    assert w.sockPath == Some(me.sock);
    var after := CourierAct(w, p, CourierFailsLate);
    forall q | q in after.procs && HasLock(after.procs[q]) && q != p ensures after.procs[q].lock != me.lock {
      assert w.holder[w.procs[q].lock] == q;
    }
  }

  /** No reclaimer can be looking at the socket a living courier takes down. */
  lemma NobodyWatchesTheLiving(w: World, p: Pid, q: Pid)
    requires Inv(w) && p in w.procs && Living(w.procs[p]) && q in w.procs && Watching(w.procs[q])
    ensures !Sees(w, w.procs[q])
  {
    var me, other := w.procs[p], w.procs[q];
    assert Sees(w, other) ==> other.sock == me.sock && HasLock(me) && me.lock == other.lock;
    assert HasLock(other) && p != q;
  }

  lemma StepTakesDown(w: World, p: Pid, a: Act)
    requires Inv(w) && p in w.procs && Ready(w, p, a) && (a.CourierUnlinks? || a.CourierCleansUp?)
    requires !w.procs[p].stage.LateFailing?
    ensures Inv(CourierAct(w, p, a))
    ensures w.sockPath == Some(w.procs[p].sock)
  {
    forall q | q in w.procs && Watching(w.procs[q]) ensures !Sees(w, w.procs[q]) {
      NobodyWatchesTheLiving(w, p, q);
    }
    TakenDownKeeps(w, CourierAct(w, p, a), p);
  }

  /** The path is cleared when nobody but `p` lives and nobody watches it. */
  lemma TakenDownKeeps(w: World, after: World, p: Pid)
    requires Inv(w) && p in w.procs && (forall q :: q in w.procs ==> !Sees(w, w.procs[q]))
    requires forall q :: q in w.procs && Living(w.procs[q]) ==> q == p
    requires p in after.procs && after.procs == w.procs[p := after.procs[p]] && !HasSock(after.procs[p])
    requires after.procs[p].stage.Left? || after.procs[p].stage.Gone?
    requires after.procs[p].lock == w.procs[p].lock && (after.procs[p].stage.Left? ==> HasLock(w.procs[p]))
    requires after.holder == w.holder && after.record == w.record && after.nextSock == w.nextSock && after.sockPath.None?
    ensures Inv(after)
  {
  }

  lemma StepLateCleanup(w: World, p: Pid)
    requires Inv(w) && p in w.procs && w.procs[p].stage.LateFailing? && !Strays(w, Runs(p, CourierCleansUp))
    ensures Inv(CourierAct(w, p, CourierCleansUp))
  {
    if w.sockPath.None? {
      OneMoves(w, CourierAct(w, p, CourierCleansUp), p);
    } else {
      forall q | q in w.procs ensures !Living(w.procs[q]) && !Sees(w, w.procs[q]) {}
    }
  }

  /** What a matched reclaimer is about to unlink is no living courier's socket. */
  lemma MatchedIsDead(w: World, p: Pid, q: Pid)
    requires Inv(w) && p in w.procs && w.procs[p].stage.ReclaimMatched? && q in w.procs
    ensures w.sockPath == Some(w.procs[p].sock)
    ensures !Living(w.procs[q])
  {
    if Living(w.procs[q]) { NobodyWatchesTheLiving(w, q, p); }
  }

  lemma StepReclaimLocks(w: World, p: Pid)
    requires Inv(w) && p in w.procs && Ready(w, p, ReclaimLocks)
    ensures Inv(ReclaimAct(w, p, ReclaimLocks))
  {
    OneMoves(w, ReclaimAct(w, p, ReclaimLocks), p);
  }

  lemma StepReclaimChecksPath(w: World, p: Pid)
    requires Inv(w) && p in w.procs && Ready(w, p, ReclaimChecksPath)
    ensures Inv(ReclaimAct(w, p, ReclaimChecksPath))
  {
    OneMoves(w, ReclaimAct(w, p, ReclaimChecksPath), p);
  }

  lemma StepReclaimLooks(w: World, p: Pid)
    requires Inv(w) && p in w.procs && Ready(w, p, ReclaimLooks)
    ensures Inv(ReclaimAct(w, p, ReclaimLooks))
  {
    assert HasLock(w.procs[p]);
    OneMoves(w, ReclaimAct(w, p, ReclaimLooks), p);
  }

  lemma StepReclaimCompares(w: World, p: Pid)
    requires Inv(w) && p in w.procs && Ready(w, p, ReclaimCompares)
    ensures Inv(ReclaimAct(w, p, ReclaimCompares))
  {
    assert HasLock(w.procs[p]) && Watching(w.procs[p]);
    OneMoves(w, ReclaimAct(w, p, ReclaimCompares), p);
  }

  lemma StepReclaimUnlinks(w: World, p: Pid)
    requires Inv(w) && p in w.procs && Ready(w, p, ReclaimUnlinks)
    ensures Inv(ReclaimAct(w, p, ReclaimUnlinks))
  {
    forall q | q in w.procs ensures !Living(w.procs[q]) { MatchedIsDead(w, p, q); }
    var me := w.procs[p];
    forall q | q in w.procs && q != p ensures !Sees(w, w.procs[q]) {
      var other := w.procs[q];
      assert Sees(w, other) ==> other.sock == me.sock && other.lock == me.lock;
      assert HasLock(me) && (Sees(w, other) ==> HasLock(other));
    }
  }

  lemma StepKeeps(w: World, s: Step)
    requires Inv(w) && Enabled(w, s) && !Strays(w, s)
    ensures Inv(Apply(w, s))
  {
    if s.Runs? {
      var p, a := s.pid, s.act;
      if p !in w.procs && a.CourierOpens? { StepCourierOpens(w, p); }
      else if p !in w.procs { StepReclaimOpens(w, p); }
      else if a.ReclaimUnlinks? { StepReclaimUnlinks(w, p); }
      else if a.ReclaimLocks? { StepReclaimLocks(w, p); }
      else if a.ReclaimChecksPath? { StepReclaimChecksPath(w, p); }
      else if a.ReclaimLooks? { StepReclaimLooks(w, p); }
      else if a.ReclaimCompares? { StepReclaimCompares(w, p); }
      else if a.CourierCleansUp? && w.procs[p].stage.LateFailing? { StepLateCleanup(w, p); }
      else if a.CourierUnlinks? || a.CourierCleansUp? { StepTakesDown(w, p, a); }
      else if a.CourierFailsLate? { StepFailsLate(w, p); }
      else if a.CourierRecords? { StepRecords(w, p); }
      else if a.CourierRecordFails? { StepRecordFails(w, p, a.truncated); }
      else if a.CourierBinds? { StepBinds(w, p); }
      else { StepCourier(w, p, a); }
    }
  }

  lemma {:induction false} RunKeeps(w: World, steps: seq<Step>, end: World)
    requires Inv(w) && Reaches(w, steps, end) && !Strayed(w, steps)
    ensures Inv(end)
    decreases |steps|
  {
    if steps != [] {
      StepKeeps(w, steps[0]);
      RunKeeps(Apply(w, steps[0]), steps[1..], end);
    }
  }

  // -- the results ---------------------------------------------------------------------------------------

  /** In every run, the socket a reclaimer unlinks belongs to no living courier,
      unless a late failing courier's cleanup went astray before. */
  lemma ReclaimNeverTakesALivingSocket(steps: seq<Step>, w: World, reclaimer: Pid, courier: Pid)
    requires Reaches(Start, steps, w) && !Strayed(Start, steps)
    requires reclaimer in w.procs && Ready(w, reclaimer, ReclaimUnlinks) && courier in w.procs
    ensures !Living(w.procs[courier])
    ensures w.sockPath == Some(w.procs[reclaimer].sock)
  {
    RunKeeps(Start, steps, w);
    MatchedIsDead(w, reclaimer, courier);
  }

  /** A reclaimer that finds no socket also finds no living courier. */
  lemma NoSocketMeansNoCourier(steps: seq<Step>, w: World, courier: Pid)
    requires Reaches(Start, steps, w) && !Strayed(Start, steps) && w.sockPath.None? && courier in w.procs
    ensures !Living(w.procs[courier])
  {
    RunKeeps(Start, steps, w);
  }

  /** A courier that unlinks the path, on leaving or after a failed record, removes
      exactly the socket it bound itself, and no other courier lives. After a late
      failure it removes a living courier's socket exactly when one lives. */
  lemma CouriersRemoveOnlyTheirOwn(steps: seq<Step>, w: World, courier: Pid, a: Act, other: Pid)
    requires Reaches(Start, steps, w) && !Strayed(Start, steps) && courier in w.procs && other in w.procs
    requires Ready(w, courier, a) && (a.CourierUnlinks? || a.CourierCleansUp?)
    ensures !w.procs[courier].stage.LateFailing? ==>
      w.sockPath == Some(w.procs[courier].sock) && (Living(w.procs[other]) ==> other == courier)
    ensures Living(w.procs[other]) ==> w.sockPath == Some(w.procs[other].sock)
    ensures w.procs[courier].stage.LateFailing? && Living(w.procs[other]) ==> Strays(w, Runs(courier, a))
  {
    RunKeeps(Start, steps, w);
  }

  /** At most one courier of a generation has a bound socket. */
  lemma OneLivingSocket(steps: seq<Step>, w: World, p: Pid, q: Pid)
    requires Reaches(Start, steps, w) && !Strayed(Start, steps) && p in w.procs && q in w.procs
    requires Living(w.procs[p]) && Living(w.procs[q])
    ensures p == q
  {
    RunKeeps(Start, steps, w);
  }

  // -- a late failure can go astray ---------------------------------------------------------------------------

  function Ran(w: World, p: Pid, acts: seq<Act>): Option<World>
    decreases |acts|
  {
    if acts == [] then Some(w)
    else if !Ready(w, p, acts[0]) then None
    else Ran(Apply(w, Runs(p, acts[0])), p, acts[1..])
  }

  lemma {:induction false} RanReaches(w: World, p: Pid, acts: seq<Act>, end: World)
    requires Ran(w, p, acts) == Some(end)
    ensures Reaches(w, seq(|acts|, i requires 0 <= i < |acts| => Runs(p, acts[i])), end)
    decreases |acts|
  {
    if acts != [] {
      var steps := seq(|acts|, i requires 0 <= i < |acts| => Runs(p, acts[i]));
      assert steps[1..] == seq(|acts[1..]|, i requires 0 <= i < |acts[1..]| => Runs(p, acts[1..][i]));
      RanReaches(Apply(w, steps[0]), p, acts[1..], end);
    }
  }

  lemma {:induction false} ReachesOn(a: World, s: seq<Step>, b: World, t: seq<Step>, c: World)
    requires Reaches(a, s, b) && Reaches(b, t, c)
    ensures Reaches(a, s + t, c)
    decreases |s|
  {
    if s == [] {
      assert s + t == t;
    } else {
      assert (s + t)[0] == s[0] && (s + t)[1..] == s[1..] + t;
      ReachesOn(Apply(a, s[0]), s[1..], b, t, c);
    }
  }

  const FailedLate := World(Some(0), 1, map[], map[0 := 0], Some(0), 1, map[1 := Proc(LateFailing, 0, 0)])
  const TakenDown := World(Some(0), 1, map[], map[0 := 0], None, 1,
    map[1 := Proc(LateFailing, 0, 0), 2 := Proc(Reclaimed(true), 0, 0)])
  const Succeeded := World(Some(0), 1, map[0 := 3], map[0 := 1], Some(1), 2,
    map[1 := Proc(LateFailing, 0, 0), 2 := Proc(Reclaimed(true), 0, 0), 3 := Proc(Serving, 0, 1)])

  lemma FailsLate()
    ensures Ran(Start, 1, [CourierOpens, CourierLocks, CourierBinds, CourierFailsLate]) == Some(FailedLate)
  {
    var w1 := Apply(Start, Runs(1, CourierOpens));
    var w2 := Apply(w1, Runs(1, CourierLocks));
    var w3 := Apply(w2, Runs(1, CourierBinds));
    var w4 := Apply(w3, Runs(1, CourierFailsLate));
    assert w4 == FailedLate;
    assert [CourierOpens, CourierLocks, CourierBinds, CourierFailsLate][1..] == [CourierLocks, CourierBinds, CourierFailsLate];
    assert [CourierLocks, CourierBinds, CourierFailsLate][1..] == [CourierBinds, CourierFailsLate];
    assert [CourierBinds, CourierFailsLate][1..] == [CourierFailsLate] && [CourierFailsLate][1..] == [];
    assert Ran(w3, 1, [CourierFailsLate]) == Some(w4);
    assert Ran(w2, 1, [CourierBinds, CourierFailsLate]) == Some(w4);
    assert Ran(w1, 1, [CourierLocks, CourierBinds, CourierFailsLate]) == Some(w4);
  }

  const LookedAt := World(Some(0), 1, map[0 := 2], map[0 := 0], Some(0), 1,
    map[1 := Proc(LateFailing, 0, 0), 2 := Proc(ReclaimCurrent, 0, 0)])

  lemma IsLookedAt()
    ensures Ran(FailedLate, 2, [ReclaimOpens, ReclaimLocks, ReclaimChecksPath]) == Some(LookedAt)
  {
    var w1 := Apply(FailedLate, Runs(2, ReclaimOpens));
    var w2 := Apply(w1, Runs(2, ReclaimLocks));
    var w3 := Apply(w2, Runs(2, ReclaimChecksPath));
    assert w3 == LookedAt;
    assert [ReclaimOpens, ReclaimLocks, ReclaimChecksPath][1..] == [ReclaimLocks, ReclaimChecksPath];
    assert [ReclaimLocks, ReclaimChecksPath][1..] == [ReclaimChecksPath] && [ReclaimChecksPath][1..] == [];
    assert Ran(w2, 2, [ReclaimChecksPath]) == Some(w3);
    assert Ran(w1, 2, [ReclaimLocks, ReclaimChecksPath]) == Some(w3);
  }

  lemma GetsReclaimed()
    ensures Ran(LookedAt, 2, [ReclaimLooks, ReclaimCompares, ReclaimUnlinks]) == Some(TakenDown)
  {
    var w1 := Apply(LookedAt, Runs(2, ReclaimLooks));
    var w2 := Apply(w1, Runs(2, ReclaimCompares));
    var w3 := Apply(w2, Runs(2, ReclaimUnlinks));
    assert w3 == TakenDown;
    assert [ReclaimLooks, ReclaimCompares, ReclaimUnlinks][1..] == [ReclaimCompares, ReclaimUnlinks];
    assert [ReclaimCompares, ReclaimUnlinks][1..] == [ReclaimUnlinks] && [ReclaimUnlinks][1..] == [];
    assert Ran(w2, 2, [ReclaimUnlinks]) == Some(w3);
    assert Ran(w1, 2, [ReclaimCompares, ReclaimUnlinks]) == Some(w3);
  }

  const SuccessorBound := World(Some(0), 1, map[0 := 3], map[0 := 0], Some(1), 2,
    map[1 := Proc(LateFailing, 0, 0), 2 := Proc(Reclaimed(true), 0, 0), 3 := Proc(Bound, 0, 1)])

  lemma SuccessorBinds()
    ensures Ran(TakenDown, 3, [CourierOpens, CourierLocks, CourierBinds]) == Some(SuccessorBound)
  {
    var w1 := Apply(TakenDown, Runs(3, CourierOpens));
    var w2 := Apply(w1, Runs(3, CourierLocks));
    var w3 := Apply(w2, Runs(3, CourierBinds));
    assert w3 == SuccessorBound;
    assert [CourierOpens, CourierLocks, CourierBinds][1..] == [CourierLocks, CourierBinds];
    assert [CourierLocks, CourierBinds][1..] == [CourierBinds] && [CourierBinds][1..] == [];
    assert Ran(w2, 3, [CourierBinds]) == Some(w3);
    assert Ran(w1, 3, [CourierLocks, CourierBinds]) == Some(w3);
  }

  lemma SuccessorServes()
    ensures Ran(SuccessorBound, 3, [CourierRecords]) == Some(Succeeded)
  {
    assert Apply(SuccessorBound, Runs(3, CourierRecords)) == Succeeded;
    assert [CourierRecords][1..] == [];
  }

  // -- whatever strays, harms -----------------------------------------------------------------------------------

  /** Lock inodes in use are older than the next one. */
  ghost predicate LockInodes(w: World) {
    && (w.lockPath.Some? ==> w.lockPath.value < w.nextLock)
    && (forall l :: l in w.holder ==> l < w.nextLock)
    && (forall p :: p in w.procs && (w.procs[p].stage.Opened? || w.procs[p].stage.ReclaimOpened?) ==>
          w.procs[p].lock < w.nextLock)
  }

  /** One process moves; a lock it newly takes is one it had opened. */
  lemma InodesKept(w: World, after: World, p: Pid)
    requires LockInodes(w) && p in after.procs && after.procs == w.procs[p := after.procs[p]]
    requires after.nextLock >= w.nextLock && (after.lockPath.Some? ==> after.lockPath.value < after.nextLock)
    requires forall l :: l in after.holder ==> l in w.holder || (l == after.procs[p].lock && l < w.nextLock)
    requires after.procs[p].stage.Opened? || after.procs[p].stage.ReclaimOpened? ==> after.procs[p].lock < after.nextLock
    ensures LockInodes(after)
  {
  }

  lemma CourierKeepsInodes(w: World, p: Pid, a: Act)
    requires LockInodes(w) && p in w.procs && Ready(w, p, a)
    ensures LockInodes(CourierAct(w, p, a))
  {
    InodesKept(w, CourierAct(w, p, a), p);
  }

  lemma ReclaimerKeepsInodes(w: World, p: Pid, a: Act)
    requires LockInodes(w) && p in w.procs && Ready(w, p, a)
    ensures LockInodes(ReclaimAct(w, p, a))
  {
    InodesKept(w, ReclaimAct(w, p, a), p);
  }

  lemma LockInodesStep(w: World, s: Step)
    requires LockInodes(w) && Enabled(w, s)
    ensures LockInodes(Apply(w, s))
  {
    if s.Runs? {
      if s.pid !in w.procs {
        InodesKept(w, OpenAct(w, s.pid, s.act), s.pid);
      } else {
        CourierKeepsInodes(w, s.pid, s.act);
        ReclaimerKeepsInodes(w, s.pid, s.act);
      }
    }
  }

  lemma {:induction false} RunKeepsInodes(w: World, steps: seq<Step>, end: World)
    requires LockInodes(w) && Reaches(w, steps, end)
    ensures LockInodes(end)
    decreases |steps|
  {
    if steps != [] {
      LockInodesStep(w, steps[0]);
      RunKeepsInodes(Apply(w, steps[0]), steps[1..], end);
    }
  }

  /** Reclaimer r is about to unlink the socket of the living courier c. */
  predicate AboutToTake(w: World, r: Pid, c: Pid) {
    c in w.procs && Living(w.procs[c]) && w.sockPath == Some(w.procs[c].sock) && r in w.procs && w.procs[r].stage.ReclaimMatched?
  }

  /** A stray cleanup under a reclaimer's eyes: a courier with a new lock file binds in
      its place, and the reclaimer is then ready to unlink that living socket. */
  lemma WatchedStrayHarms(steps: seq<Step>, w: World, p: Pid, r: Pid, c: Pid)
    requires Reaches(Start, steps, w) && p in w.procs && w.procs[p].stage.LateFailing? && r in w.procs && c !in w.procs
    requires Sees(w, w.procs[r]) || w.procs[r].stage.ReclaimMatched?
    ensures (
      var w2 := Apply(Apply(w, Runs(p, CourierCleansUp)), LockFileReplaced);
      && Ran(w2, c, [CourierOpens, CourierLocks, CourierBinds]).Some?
      && (var bound := Ran(w2, c, [CourierOpens, CourierLocks, CourierBinds]).value;
          if w.procs[r].stage.ReclaimMatched? then AboutToTake(bound, r, c)
          else Ready(bound, r, ReclaimCompares) && AboutToTake(Apply(bound, Runs(r, ReclaimCompares)), r, c)))
  {
    RunKeepsInodes(Start, steps, w);
    FreshCourierBinds(Apply(Apply(w, Runs(p, CourierCleansUp)), LockFileReplaced), c);
  }

  lemma FreshCourierBinds(w: World, c: Pid)
    requires c !in w.procs && w.sockPath.None? && w.lockPath.Some? && w.lockPath.value !in w.holder
    ensures Ran(w, c, [CourierOpens, CourierLocks, CourierBinds]).Some?
    ensures (
      var end := Ran(w, c, [CourierOpens, CourierLocks, CourierBinds]).value;
      && end.procs == w.procs[c := Proc(Bound, w.lockPath.value, w.nextSock)] && end.sockPath == Some(w.nextSock)
      && end.lockPath == w.lockPath && end.record == w.record)
  {
    var w3 := Apply(w, Runs(c, CourierOpens));
    var w4 := Apply(w3, Runs(c, CourierLocks));
    var w5 := Apply(w4, Runs(c, CourierBinds));
    assert [CourierOpens, CourierLocks, CourierBinds][1..] == [CourierLocks, CourierBinds];
    assert [CourierLocks, CourierBinds][1..] == [CourierBinds] && [CourierBinds][1..] == [];
    assert Ran(w4, c, [CourierBinds]) == Some(w5);
    assert Ran(w3, c, [CourierLocks, CourierBinds]) == Some(w5);
    assert w5.procs == w.procs[c := Proc(Bound, w.lockPath.value, w.nextSock)];
  }

  // -- and a stray is reached --------------------------------------------------------------------------------------

  /** Some run leads from one world to the other. */
  ghost predicate Leads(a: World, b: World) { exists steps :: Reaches(a, steps, b) }

  lemma RanLeads(a: World, b: World, p: Pid, acts: seq<Act>, c: World)
    requires Leads(a, b) && Ran(b, p, acts) == Some(c)
    ensures Leads(a, c)
  {
    var s :| Reaches(a, s, b);
    RanReaches(b, p, acts, c);
    var t := seq(|acts|, i requires 0 <= i < |acts| => Runs(p, acts[i]));
    ReachesOn(a, s, b, t, c);
  }

  lemma StepLeads(a: World, b: World, s: Step)
    requires Leads(a, b) && Enabled(b, s)
    ensures Leads(a, Apply(b, s))
  {
    var t :| Reaches(a, t, b);
    assert [s][1..] == [];
    ReachesOn(a, t, b, [s], Apply(b, s));
  }

  lemma {:induction false} FreshPid(pids: set<Pid>) returns (c: Pid)
    ensures forall p :: p in pids ==> p < c
    decreases |pids|
  {
    if pids == {} { return 0; }
    var p :| p in pids;
    var d := FreshPid(pids - {p});
    c := if d <= p then p + 1 else d;
    forall q | q in pids ensures q < c { assert q == p || q in pids - {p}; }
  }

  /** Every stray cleanup harms: it leaves a living courier without its socket, or it
      can be followed to a reclaimer about to take a living one's. */
  lemma EveryStrayHarms(steps: seq<Step>, w: World, p: Pid)
    requires Reaches(Start, steps, w) && Strays(w, Runs(p, CourierCleansUp))
    ensures (
      var after := Apply(w, Runs(p, CourierCleansUp));
      || (exists q :: q in after.procs && Living(after.procs[q]) && after.sockPath.None?)
      || (exists end, r, c :: Leads(after, end) && AboutToTake(end, r, c)))
  {
    var after := Apply(w, Runs(p, CourierCleansUp));
    var q :| q in w.procs && (Living(w.procs[q]) || Sees(w, w.procs[q]));
    assert q != p;
    if Living(w.procs[q]) {
      assert Living(after.procs[q]);
    } else {
      var c := FreshPid(w.procs.Keys);
      WatchedStrayHarms(steps, w, p, q, c);
      assert Reaches(after, [], after);
      StepLeads(after, after, LockFileReplaced);
      var replaced := Apply(after, LockFileReplaced);
      var bound := Ran(replaced, c, [CourierOpens, CourierLocks, CourierBinds]).value;
      RanLeads(after, replaced, c, [CourierOpens, CourierLocks, CourierBinds], bound);
      if !w.procs[q].stage.ReclaimMatched? { StepLeads(after, bound, Runs(q, ReclaimCompares)); }
    }
  }

  lemma SuccessorIsReached()
    ensures Leads(Start, Succeeded)
  {
    assert Reaches(Start, [], Start);
    FailsLate();
    RanLeads(Start, Start, 1, [CourierOpens, CourierLocks, CourierBinds, CourierFailsLate], FailedLate);
    IsLookedAt();
    RanLeads(Start, FailedLate, 2, [ReclaimOpens, ReclaimLocks, ReclaimChecksPath], LookedAt);
    GetsReclaimed();
    RanLeads(Start, LookedAt, 2, [ReclaimLooks, ReclaimCompares, ReclaimUnlinks], TakenDown);
    SuccessorBinds();
    RanLeads(Start, TakenDown, 3, [CourierOpens, CourierLocks, CourierBinds], SuccessorBound);
    SuccessorServes();
    RanLeads(Start, SuccessorBound, 3, [CourierRecords], Succeeded);
  }

  /** A courier fails right after its record was written, its socket is reclaimed, a
      successor serves, and the late cleanup unlinks the successor's socket. */
  lemma LateCleanupTakesTheSuccessorsSocket()
    ensures Leads(Start, Succeeded)
    ensures Living(Succeeded.procs[3]) && Succeeded.sockPath == Some(Succeeded.procs[3].sock)
    ensures Ready(Succeeded, 1, CourierCleansUp) && Apply(Succeeded, Runs(1, CourierCleansUp)).sockPath.None?
    ensures Strays(Succeeded, Runs(1, CourierCleansUp))
  {
    SuccessorIsReached();
  }

  // -- and what is dead is taken down -------------------------------------------------------------------------------

  /** The socket at the path is the one its lock records, and nobody holds that lock. */
  predicate Abandoned(w: World) {
    && w.sockPath.Some? && w.lockPath.Some? && w.lockPath.value !in w.holder
    && w.lockPath.value in w.record && w.record[w.lockPath.value] == w.sockPath.value
  }

  /** A reclaimer with the lock of the recorded socket takes it down. */
  lemma CurrentTakesDown(w: World, r: Pid)
    requires r in w.procs && w.procs[r].stage.ReclaimCurrent? && w.sockPath.Some?
    requires w.procs[r].lock in w.record && w.record[w.procs[r].lock] == w.sockPath.value
    ensures exists end :: (
      Ran(w, r, [ReclaimLooks, ReclaimCompares, ReclaimUnlinks]) == Some(end)
      && end.sockPath.None? && (forall l :: l in end.holder <==> l in w.holder && w.holder[l] != r)
      && r in end.procs && end.procs[r].stage == Reclaimed(true) && end.record == w.record && end.lockPath == w.lockPath)
  {
    var w4 := Apply(w, Runs(r, ReclaimLooks));
    var w5 := Apply(w4, Runs(r, ReclaimCompares));
    var w6 := Apply(w5, Runs(r, ReclaimUnlinks));
    RanMore(w5, r, ReclaimUnlinks, [], w6);
    RanMore(w4, r, ReclaimCompares, [ReclaimUnlinks], w6);
    RanMore(w, r, ReclaimLooks, [ReclaimCompares, ReclaimUnlinks], w6);
    assert [ReclaimUnlinks] + [] == [ReclaimUnlinks] && [ReclaimCompares] + [ReclaimUnlinks] == [ReclaimCompares, ReclaimUnlinks];
    assert [ReclaimLooks] + [ReclaimCompares, ReclaimUnlinks] == [ReclaimLooks, ReclaimCompares, ReclaimUnlinks];
  }

  lemma LockIsTaken(w: World, r: Pid, rest: seq<Act>, end: World)
    requires Abandoned(w) && r !in w.procs
    requires Ran(w.(procs := w.procs[r := Proc(ReclaimCurrent, w.lockPath.value, 0)], holder := w.holder[w.lockPath.value := r]),
                 r, rest) == Some(end)
    ensures Ran(w, r, [ReclaimOpens] + ([ReclaimLocks] + ([ReclaimChecksPath] + rest))) == Some(end)
  {
    var w1 := Apply(w, Runs(r, ReclaimOpens));
    var w2 := Apply(w1, Runs(r, ReclaimLocks));
    var w3 := Apply(w2, Runs(r, ReclaimChecksPath));
    assert w3 == w.(procs := w.procs[r := Proc(ReclaimCurrent, w.lockPath.value, 0)], holder := w.holder[w.lockPath.value := r]);
    RanMore(w2, r, ReclaimChecksPath, rest, end);
    RanMore(w1, r, ReclaimLocks, [ReclaimChecksPath] + rest, end);
    RanMore(w, r, ReclaimOpens, [ReclaimLocks] + ([ReclaimChecksPath] + rest), end);
  }

  /** From any world with such a socket, a reclaimer that is not disturbed takes it
      down, leaves nothing locked, and says so. */
  lemma AbandonedSocketIsReclaimed(w: World, r: Pid)
    requires Abandoned(w) && r !in w.procs
    ensures exists end :: (
      Ran(w, r, [ReclaimOpens, ReclaimLocks, ReclaimChecksPath, ReclaimLooks, ReclaimCompares, ReclaimUnlinks]) == Some(end)
      && end.sockPath.None? && w.lockPath.value !in end.holder && r in end.procs && end.procs[r].stage == Reclaimed(true)
      && end.record == w.record && end.lockPath == w.lockPath)
  {
    var lock := w.lockPath.value;
    var w3 := w.(procs := w.procs[r := Proc(ReclaimCurrent, lock, 0)], holder := w.holder[lock := r]);
    CurrentTakesDown(w3, r);
    var last := [ReclaimLooks, ReclaimCompares, ReclaimUnlinks];
    LockIsTaken(w, r, last, Ran(w3, r, last).value);
    assert [ReclaimOpens] + ([ReclaimLocks] + ([ReclaimChecksPath] + last))
        == [ReclaimOpens, ReclaimLocks, ReclaimChecksPath, ReclaimLooks, ReclaimCompares, ReclaimUnlinks];
  }

  lemma RanMore(w: World, p: Pid, a: Act, rest: seq<Act>, end: World)
    requires Ready(w, p, a) && Ran(Apply(w, Runs(p, a)), p, rest) == Some(end)
    ensures Ran(w, p, [a] + rest) == Some(end)
  {
    assert ([a] + rest)[1..] == rest;
  }

  /** A reclaimer that finds the lock held, another lock file at the path, or a socket
      its lock does not record, gives up and changes nothing but itself. */
  lemma DoubtLeavesEverything(w: World, r: Pid, a: Act)
    requires r in w.procs && Ready(w, r, a)
    requires a.ReclaimLocks? || a.ReclaimChecksPath? || a.ReclaimCompares?
    ensures (
      var me, after := w.procs[r], Apply(w, Runs(r, a));
      var doubt := (a.ReclaimLocks? && me.lock in w.holder) || (a.ReclaimChecksPath? && w.lockPath != Some(me.lock))
        || (a.ReclaimCompares? && !(me.lock in w.record && w.record[me.lock] == me.sock));
      && after.sockPath == w.sockPath && after.record == w.record && after.lockPath == w.lockPath
      && (doubt <==> after.procs[r].stage == Reclaimed(false)))
  {
  }

  /** Looking at a path without a socket proves that there is nothing to take down. */
  lemma NothingToTakeDown(w: World, r: Pid)
    requires r in w.procs && w.procs[r].stage.ReclaimCurrent?
    ensures (
      var after := Apply(w, Runs(r, ReclaimLooks));
      && after.sockPath == w.sockPath && after.record == w.record
      && (after.procs[r].stage == Reclaimed(true) <==> w.sockPath.None?)
      && (w.sockPath.Some? ==> after.procs[r] == Proc(ReclaimSaw, w.procs[r].lock, w.sockPath.value)))
  {
  }

  /** A reclaimer that finds no lock file proves nothing. */
  lemma NoLockFileProvesNothing(w: World, r: Pid)
    requires r !in w.procs
    ensures (
      var after := Apply(w, Runs(r, ReclaimOpens));
      && after.lockPath == w.lockPath && after.sockPath == w.sockPath && after.record == w.record
      && (if w.lockPath.Some? then after.procs[r].stage.ReclaimOpened? && after.procs[r].lock == w.lockPath.value
          else after.procs[r].stage == Reclaimed(false)))
  {
  }

  /** A process can die at any time: its lock is dropped, and what it left on disk stays. */
  lemma DyingDropsOnlyTheLock(w: World, p: Pid)
    requires p in w.procs
    ensures Ready(w, p, Dies)
    ensures (
      var after := Apply(w, Runs(p, Dies));
      && after.procs == w.procs[p := w.procs[p].(stage := Gone)]
      && (forall l :: l in after.holder <==> l in w.holder && w.holder[l] != p)
      && after.sockPath == w.sockPath && after.record == w.record && after.lockPath == w.lockPath)
  {
  }

  /** A courier that cannot write its record gives up its lock, with the old record kept
      or cut off. */
  lemma FailedRecordIsKeptOrCut(w: World, p: Pid, truncated: bool)
    requires p in w.procs && w.procs[p].stage.Bound?
    ensures (
      var after := Apply(w, Runs(p, CourierRecordFails(truncated)));
      && after.procs[p].stage.Failing? && (forall l :: l in after.holder ==> after.holder[l] != p)
      && after.record == (if truncated then w.record - {w.procs[p].lock} else w.record) && after.sockPath == w.sockPath)
  {
  }

  /** A serving courier that stops takes down the path exactly if its own socket is
      there, and frees its lock either way. */
  lemma StoppingTakesDownItsOwn(w: World, p: Pid)
    requires p in w.procs && w.procs[p].stage.Serving?
    ensures (
      var stopped := Apply(w, Runs(p, CourierStops));
      if w.sockPath == Some(w.procs[p].sock) then
        Ready(stopped, p, CourierUnlinks)
        && (var end := Apply(Apply(stopped, Runs(p, CourierUnlinks)), Runs(p, CourierCloses));
            end.sockPath.None? && end.procs[p].stage.Gone? && forall l :: l in end.holder ==> end.holder[l] != p)
      else
        Ready(stopped, p, CourierCloses)
        && (var end := Apply(stopped, Runs(p, CourierCloses));
            end.sockPath == w.sockPath && end.procs[p].stage.Gone? && forall l :: l in end.holder ==> end.holder[l] != p))
  {
  }

  /** A new courier creates the lock file if it is missing. */
  lemma CourierOpensTheLockFile(w: World, c: Pid)
    requires c !in w.procs
    ensures (
      var after := Apply(w, Runs(c, CourierOpens));
      && after.lockPath.Some? && (w.lockPath.Some? ==> after.lockPath == w.lockPath)
      && after.procs[c] == Proc(Opened, after.lockPath.value, after.procs[c].sock)
      && (w.lockPath.None? ==> after.lockPath.value == w.nextLock && after.nextLock > w.nextLock))
  {
  }

  lemma OpenedCourierServes(w: World, c: Pid)
    requires c in w.procs && w.procs[c].stage.Opened? && w.procs[c].lock !in w.holder && w.sockPath.None?
    ensures exists end :: (
      Ran(w, c, [CourierLocks, CourierBinds, CourierRecords]) == Some(end)
      && c in end.procs && end.procs[c] == Proc(Serving, w.procs[c].lock, w.nextSock) && end.sockPath == Some(w.nextSock)
      && end.lockPath == w.lockPath
      && end.holder == w.holder[w.procs[c].lock := c] && end.record == w.record[w.procs[c].lock := w.nextSock])
  {
    var w1 := Apply(w, Runs(c, CourierLocks));
    var w2 := Apply(w1, Runs(c, CourierBinds));
    var w3 := Apply(w2, Runs(c, CourierRecords));
    RanMore(w2, c, CourierRecords, [], w3);
    RanMore(w1, c, CourierBinds, [CourierRecords], w3);
    RanMore(w, c, CourierLocks, [CourierBinds, CourierRecords], w3);
    assert [CourierRecords] + [] == [CourierRecords] && [CourierBinds] + [CourierRecords] == [CourierBinds, CourierRecords];
    assert [CourierLocks] + [CourierBinds, CourierRecords] == [CourierLocks, CourierBinds, CourierRecords];
  }

  /** In every reachable world with no socket at the path and nobody on the lock file, a
      new courier comes to serve: it holds that lock, its socket is at the path, and
      the lock records it. */
  lemma CourierComesToServe(steps: seq<Step>, w: World, c: Pid)
    requires Reaches(Start, steps, w) && c !in w.procs && w.sockPath.None?
    requires w.lockPath.Some? ==> w.lockPath.value !in w.holder
    ensures exists end :: (
      Ran(w, c, [CourierOpens] + [CourierLocks, CourierBinds, CourierRecords]) == Some(end)
      && c in end.procs && end.procs[c].stage.Serving? && end.lockPath == Some(end.procs[c].lock)
      && end.procs[c].lock in end.holder && end.holder[end.procs[c].lock] == c
      && end.sockPath == Some(end.procs[c].sock)
      && end.procs[c].lock in end.record && end.record[end.procs[c].lock] == end.procs[c].sock)
  {
    RunKeepsInodes(Start, steps, w);
    CourierOpensTheLockFile(w, c);
    var w1 := Apply(w, Runs(c, CourierOpens));
    assert w1.holder == w.holder && w1.sockPath.None?;
    OpenedCourierServes(w1, c);
    RanMore(w, c, CourierOpens, [CourierLocks, CourierBinds, CourierRecords],
            Ran(w1, c, [CourierLocks, CourierBinds, CourierRecords]).value);
  }
}
