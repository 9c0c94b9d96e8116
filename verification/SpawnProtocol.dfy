/**
 The protocol by which parallel workers share one persistent manager process: an unlocked
 fast path over a socket file and a meta file, and a spawn path behind an exclusive lock.
 Every file operation, connection and process event is one step of its own, and steps of
 different workers interleave in any way.
 */
module SpawnProtocol {
  import opened Json

  /** A manager that was idle for too long is leaving: it has removed the socket, not yet the meta file. */
  datatype Status = Starting | Listening | Leaving | Gone

  /** The meta file: opening it for writing leaves it half written until the text is in. */
  datatype Meta = NoMeta | Partial(owner: nat) | Full(owner: nat)

  /** Where a worker stands. The look at the files is the same code with and without the lock. */
  datatype Pc =
    | CheckSocket(locked: bool)
    | CheckMeta(locked: bool)
    | CheckStale(locked: bool)
    | LoadMeta(locked: bool)
    | CheckIsSocket(locked: bool, key: nat)
    | ConnectKnown(locked: bool, key: nat)
    | UnlinkSocket(locked: bool)
    | UnlinkMeta(locked: bool)
    | AwaitLock
    | ClearSocket
    | ClearMeta
    | SpawnManager
    | AwaitSocket(own: nat)
    | OpenMeta(own: nat)
    | WriteMeta(own: nat)
    | ConnectOwn(own: nat)
    | Unlock(result: Option<nat>)
    | Returned(owner: nat)
    | Raised

  /** Managers are numbered in the order they are spawned; a key stands for its manager. */
  datatype State = State(
    socket: Option<nat>,     // the manager listening behind the socket file
    meta: Meta,
    lock: Option<nat>,
    workers: seq<Pc>,
    managers: seq<Status>,
    clients: seq<nat>,       // the managers that clients were connected to
    cleanups: nat,           // cleanups, by workers that could not connect and by idle managers
    unlinks: nat,            // files those cleanups found and tried to remove
    exits: nat,              // managers that exited otherwise than by being idle
    failures: nat            // startups given up and meta files not written
  )

  /**
   `Step` is a worker's next step; `ok` settles what the outside decides: whether an
   operation that may fail succeeds, and whether a dead owner is noticed.
   */
  datatype Action =
    | Step(worker: nat, ok: bool)
    | Again(worker: nat)
    | Bind(manager: nat)
    | Exit(manager: nat, tidy: bool)
    | IdleSocket(manager: nat, ok: bool)
    | IdleMeta(manager: nat, ok: bool)

  function Init(n: nat): (s: State)
    ensures |s.workers| == n && forall w | 0 <= w < n :: s.workers[w] == CheckSocket(false)
  {
    State(None, NoMeta, None, seq(n, _ => CheckSocket(false)), [], [], 0, 0, 0, 0)
  }

  predicate Enabled(s: State, a: Action) {
    match a
    case Step(w, ok) =>
      w < |s.workers| &&
      (match s.workers[w]
       case AwaitLock => s.lock == None
       case AwaitSocket(_) => ok ==> s.socket != None
       case Returned(_) => false
       case Raised => false
       case _ => true)
    case Again(w) => w < |s.workers| && (s.workers[w].Returned? || s.workers[w].Raised?)
    case Bind(m) => m < |s.managers| && s.managers[m] == Starting
    case Exit(m, _) => m < |s.managers| && s.managers[m] != Gone
    case IdleSocket(m, _) => m < |s.managers| && s.managers[m] == Listening
    case IdleMeta(m, _) => m < |s.managers| && s.managers[m] == Leaving
  }

  function At(s: State, w: nat, pc: Pc): State
    requires w < |s.workers|
  {
    s.(workers := s.workers[w := pc])
  }

  /** Where the look at the files leads when it finds no manager. */
  function NoManager(locked: bool): Pc {
    if locked then ClearSocket else AwaitLock
  }

  predicate Answers(s: State, m: nat) {
    s.socket == Some(m) && m < |s.managers| && (s.managers[m] == Listening || s.managers[m] == Leaving)
  }

  function StepWorker(s: State, w: nat, ok: bool): State
    requires Enabled(s, Step(w, ok))
  {
    match s.workers[w]
    case CheckSocket(locked) =>
      At(s, w, if s.socket != None then CheckMeta(locked) else NoManager(locked))
    case CheckMeta(locked) =>
      At(s, w, if s.meta != NoMeta then CheckStale(locked) else NoManager(locked))
    case CheckStale(locked) =>
      if ok && s.meta.Full? && s.meta.owner < |s.managers| && s.managers[s.meta.owner] == Gone
      then At(s, w, UnlinkSocket(locked))
      else At(s, w, LoadMeta(locked))
    case LoadMeta(locked) =>
      if s.meta.Full? then At(s, w, CheckIsSocket(locked, s.meta.owner))
      else At(s, w, UnlinkSocket(locked))
    case CheckIsSocket(locked, key) =>
      At(s, w, if s.socket != None then ConnectKnown(locked, key) else NoManager(locked))
    case ConnectKnown(locked, key) =>
      if ok && Answers(s, key) then
        At(s, w, if locked then Unlock(Some(key)) else Returned(key)).(clients := s.clients + [key])
      else
        At(s, w, UnlinkSocket(locked))
    case UnlinkSocket(locked) =>
      At(s, w, UnlinkMeta(locked)).(socket := if ok then None else s.socket, cleanups := s.cleanups + 1,
                                    unlinks := if s.socket == None then s.unlinks else s.unlinks + 1)
    case UnlinkMeta(locked) =>
      if s.meta == NoMeta then At(s, w, NoManager(locked))
      else At(s, w, NoManager(locked)).(meta := if ok then NoMeta else s.meta, unlinks := s.unlinks + 1)
    case AwaitLock =>
      At(s, w, CheckSocket(true)).(lock := Some(w))
    case ClearSocket =>
      At(s, w, ClearMeta).(socket := if ok then None else s.socket)
    case ClearMeta =>
      At(s, w, SpawnManager).(meta := if ok then NoMeta else s.meta)
    case SpawnManager =>
      if ok then At(s, w, AwaitSocket(|s.managers|)).(managers := s.managers + [Starting])
      else At(s, w, Unlock(None))
    case AwaitSocket(own) =>
      if ok then At(s, w, OpenMeta(own))
      else At(s, w, Unlock(None)).(failures := s.failures + 1)
    case OpenMeta(own) =>
      if ok then At(s, w, WriteMeta(own)).(meta := Partial(own))
      else At(s, w, ConnectOwn(own)).(failures := s.failures + 1)
    case WriteMeta(own) =>
      if ok then At(s, w, ConnectOwn(own)).(meta := if s.meta == Partial(own) then Full(own) else s.meta)
      else At(s, w, ConnectOwn(own)).(failures := s.failures + 1)
    case ConnectOwn(own) =>
      if ok && Answers(s, own) then At(s, w, Unlock(Some(own))).(clients := s.clients + [own])
      else At(s, w, Unlock(None))
    case Unlock(result) =>
      At(s, w, if result == None then Raised else Returned(result.value)).(lock := None)
  }

  function Next(s: State, a: Action): State
    requires Enabled(s, a)
  {
    match a
    case Step(w, ok) => StepWorker(s, w, ok)
    case Again(w) => At(s, w, CheckSocket(false))
    case Bind(m) =>
      if s.socket == None then s.(socket := Some(m), managers := s.managers[m := Listening])
      else s.(managers := s.managers[m := Gone], exits := s.exits + 1)   // the address is in use
    case Exit(m, tidy) =>
      s.(managers := s.managers[m := Gone], exits := s.exits + 1,
         socket := if tidy && s.managers[m] != Starting then None else s.socket)
    case IdleSocket(m, ok) =>      // an unlocked cleanup, whoever the files belong to by now
      s.(managers := s.managers[m := Leaving], socket := if ok then None else s.socket, cleanups := s.cleanups + 1,
         unlinks := if s.socket == None then s.unlinks else s.unlinks + 1)
    case IdleMeta(m, ok) =>
      s.(managers := s.managers[m := Gone], meta := if ok then NoMeta else s.meta,
         unlinks := if s.meta == NoMeta then s.unlinks else s.unlinks + 1)
  }

  /** `s` is where the run leads from `start`, every action being enabled in its turn. */
  ghost predicate Leads(start: State, run: seq<Action>, s: State)
    decreases |run|
  {
    if run == [] then s == start
    else Enabled(start, run[0]) && Leads(Next(start, run[0]), run[1..], s)
  }

  function Spawned(s: State): nat {
    |s.managers|
  }

  // ---------------------------------------------------------------- counting managers, over all runs

  predicate Holding(pc: Pc) {
    match pc
    case CheckSocket(locked) => locked
    case CheckMeta(locked) => locked
    case CheckStale(locked) => locked
    case LoadMeta(locked) => locked
    case CheckIsSocket(locked, _) => locked
    case ConnectKnown(locked, _) => locked
    case UnlinkSocket(locked) => locked
    case UnlinkMeta(locked) => locked
    case AwaitLock => false
    case Returned(_) => false
    case Raised => false
    case _ => true
  }

  /** The lock is held by exactly the worker inside the locked section. */
  predicate Exclusive(s: State) {
    && (s.lock != None ==> s.lock.value < |s.workers|)
    && forall w | 0 <= w < |s.workers| :: Holding(s.workers[w]) <==> s.lock == Some(w)
  }

  predicate Published(s: State) {
    s.socket != None && s.meta.Full?
  }

  /**
   What pays for managers beyond the first: the files that cleanups tried to remove, or the
   cleanups together with the spawns that happened while an unlocked cleanup was half done.
   */
  datatype Tally = PerFile | PerCleanup(overlaps: nat)

  /** The managers the counters still allow. */
  function Credit(s: State, tally: Tally): int {
    1 + (match tally case PerFile => s.unlinks case PerCleanup(overlaps) => s.cleanups + overlaps)
      + s.exits + s.failures - Spawned(s)
  }

  predicate Publishing(pc: Pc) {
    pc.AwaitSocket? || pc.OpenMeta? || pc.WriteMeta?
  }

  predicate Solvent(s: State, tally: Tally)
    requires Exclusive(s)
  {
    && Credit(s, tally) >= 0
    && (Credit(s, tally) >= 1 || Published(s) || (s.lock != None && Publishing(s.workers[s.lock.value])))
  }

  /** What a worker's position says about the credit. */
  predicate Entitled(s: State, pc: Pc, tally: Tally) {
    match pc
    case UnlinkMeta(locked) => locked || tally.PerCleanup? ==> Credit(s, tally) >= 1
    case ClearSocket => Credit(s, tally) >= 1
    case ClearMeta => Credit(s, tally) >= 1
    case SpawnManager => Credit(s, tally) >= 1
    case OpenMeta(_) => s.socket != None || Credit(s, tally) >= 1
    case WriteMeta(own) => (s.socket != None && s.meta == Partial(own)) || Credit(s, tally) >= 1
    case _ => true
  }

  predicate SomeLeaving(s: State) {
    exists m | 0 <= m < |s.managers| :: s.managers[m] == Leaving
  }

  predicate Counted(s: State, tally: Tally) {
    && Exclusive(s)
    && Solvent(s, tally)
    && (tally.PerCleanup? && SomeLeaving(s) ==> Credit(s, tally) >= 1)
    && forall w | 0 <= w < |s.workers| :: Entitled(s, s.workers[w], tally)
  }

  /** An unlocked cleanup, by a worker or by an idle manager, stands between its two removals. */
  predicate HalfCleaned(s: State) {
    SomeLeaving(s) || exists v | 0 <= v < |s.workers| :: s.workers[v] == UnlinkMeta(false)
  }

  /** A manager is spawned at such a time. */
  predicate SpawnsDuringCleanup(s: State, a: Action) {
    a.Step? && a.ok && a.worker < |s.workers| && s.workers[a.worker] == SpawnManager && HalfCleaned(s)
  }

  function Grown(s: State, a: Action, tally: Tally): Tally {
    if tally.PerCleanup? && SpawnsDuringCleanup(s, a) then PerCleanup(tally.overlaps + 1) else tally
  }

  lemma StepKeepsExclusive(s: State, w: nat, ok: bool)
    requires Exclusive(s) && Enabled(s, Step(w, ok))
    ensures Exclusive(StepWorker(s, w, ok))
  {
  }

  lemma StepKeepsSolvent(s: State, w: nat, ok: bool, tally: Tally)
    requires Counted(s, tally) && Enabled(s, Step(w, ok))
    ensures Exclusive(StepWorker(s, w, ok))
    ensures Solvent(StepWorker(s, w, ok), Grown(s, Step(w, ok), tally))
    ensures Entitled(StepWorker(s, w, ok), StepWorker(s, w, ok).workers[w], Grown(s, Step(w, ok), tally))
  {
    StepKeepsExclusive(s, w, ok);
    assert Entitled(s, s.workers[w], tally);
    assert Holding(s.workers[w]) <==> s.lock == Some(w);
  }

  lemma StepSparesOthers(s: State, w: nat, ok: bool, v: nat, tally: Tally)
    requires Counted(s, tally) && Enabled(s, Step(w, ok)) && v < |s.workers| && v != w
    ensures Entitled(StepWorker(s, w, ok), s.workers[v], Grown(s, Step(w, ok), tally))
  {
    assert Entitled(s, s.workers[v], tally);
    assert !(Holding(s.workers[v]) && Holding(s.workers[w]));
  }

  lemma StepKeepsEntitled(s: State, w: nat, ok: bool, v: nat, tally: Tally)
    requires Counted(s, tally) && Enabled(s, Step(w, ok)) && v < |s.workers|
    ensures var s' := StepWorker(s, w, ok);
            |s'.workers| == |s.workers| && Entitled(s', s'.workers[v], Grown(s, Step(w, ok), tally))
  {
    if v == w {
      StepKeepsSolvent(s, w, ok, tally);
    } else {
      StepSparesOthers(s, w, ok, v, tally);
    }
  }

  lemma StepKeepsLeaving(s: State, w: nat, ok: bool, tally: Tally)
    requires Counted(s, tally) && Enabled(s, Step(w, ok)) && tally.PerCleanup? && SomeLeaving(StepWorker(s, w, ok))
    ensures Credit(StepWorker(s, w, ok), Grown(s, Step(w, ok), tally)) >= 1
  {
    var s' := StepWorker(s, w, ok);
    var m :| 0 <= m < |s'.managers| && s'.managers[m] == Leaving;
    assert m < |s.managers| && s.managers[m] == Leaving;
  }

  lemma StepKeepsCounted(s: State, w: nat, ok: bool, tally: Tally)
    requires Counted(s, tally) && Enabled(s, Step(w, ok))
    ensures Counted(StepWorker(s, w, ok), Grown(s, Step(w, ok), tally))
  {
    StepKeepsSolvent(s, w, ok, tally);
    if tally.PerCleanup? && SomeLeaving(StepWorker(s, w, ok)) {
      StepKeepsLeaving(s, w, ok, tally);
    }
    forall v | 0 <= v < |s.workers|
      ensures var s' := StepWorker(s, w, ok);
              |s'.workers| == |s.workers| && Entitled(s', s'.workers[v], Grown(s, Step(w, ok), tally))
    {
      StepKeepsEntitled(s, w, ok, v, tally);
    }
  }

  lemma NextKeepsCounted(s: State, a: Action, tally: Tally)
    requires Counted(s, tally) && Enabled(s, a)
    ensures Counted(Next(s, a), Grown(s, a, tally))
  {
    if a.Step? {
      StepKeepsCounted(s, a.worker, a.ok, tally);
    } else {
      var s' := Next(s, a);
      forall v | 0 <= v < |s'.workers| ensures Entitled(s', s'.workers[v], tally) {
        assert Entitled(s, s.workers[v], tally);
      }
    }
  }

  predicate MidCleanup(pc: Pc) {
    pc.UnlinkMeta?
  }

  predicate IsLeaving(status: Status) {
    status.Leaving?
  }

  function Count<T>(xs: seq<T>, counts: T -> bool): nat {
    if xs == [] then 0 else Count(xs[..|xs| - 1], counts) + if counts(xs[|xs| - 1]) then 1 else 0
  }

  lemma {:induction false} CountAfter<T>(xs: seq<T>, i: nat, x: T, counts: T -> bool)
    requires i < |xs|
    ensures Count(xs[i := x], counts) + (if counts(xs[i]) then 1 else 0) ==
            Count(xs, counts) + if counts(x) then 1 else 0
  {
    var n := |xs| - 1;
    assert xs[i := x][..n] == if i == n then xs[..n] else xs[..n][i := x];
    if i < n {
      CountAfter(xs[..n], i, x, counts);
    }
  }

  lemma CountMore<T>(xs: seq<T>, x: T, counts: T -> bool)
    ensures Count(xs + [x], counts) == Count(xs, counts) + if counts(x) then 1 else 0
  {
    assert (xs + [x])[..|xs|] == xs;
  }

  lemma {:induction false} NoneCounted<T>(xs: seq<T>, counts: T -> bool)
    requires forall i | 0 <= i < |xs| :: !counts(xs[i])
    ensures Count(xs, counts) == 0
  {
    if xs != [] {
      NoneCounted(xs[..|xs| - 1], counts);
    }
  }

  /** A cleanup finds two files at most; one in the middle may still find one. */
  predicate CleanupsCounted(s: State) {
    s.unlinks + Count(s.workers, MidCleanup) + Count(s.managers, IsLeaving) <= 2 * s.cleanups
  }

  lemma StepKeepsCleanupsCounted(s: State, w: nat, ok: bool)
    requires CleanupsCounted(s) && Enabled(s, Step(w, ok))
    ensures CleanupsCounted(StepWorker(s, w, ok))
  {
    CountAfter(s.workers, w, StepWorker(s, w, ok).workers[w], MidCleanup);
    CountMore(s.managers, Starting, IsLeaving);
  }

  lemma NextKeepsCleanupsCounted(s: State, a: Action)
    requires CleanupsCounted(s) && Enabled(s, a)
    ensures CleanupsCounted(Next(s, a))
  {
    match a {
      case Step(w, ok) => StepKeepsCleanupsCounted(s, w, ok);
      case Again(w) => CountAfter(s.workers, w, CheckSocket(false), MidCleanup);
      case _ => CountAfter(s.managers, a.manager, Next(s, a).managers[a.manager], IsLeaving);
    }
  }

  /** How many managers a run spawns while an unlocked cleanup is half done. */
  ghost function Overlaps(start: State, run: seq<Action>): nat
    decreases |run|
  {
    if run == [] || !Enabled(start, run[0]) then 0
    else (if SpawnsDuringCleanup(start, run[0]) then 1 else 0) + Overlaps(Next(start, run[0]), run[1..])
  }

  lemma {:induction false} RunKeepsCounts(start: State, run: seq<Action>, s: State, tally: Tally)
    requires Counted(start, tally) && CleanupsCounted(start) && Leads(start, run, s)
    ensures CleanupsCounted(s)
    ensures Counted(s, if tally.PerFile? then PerFile else PerCleanup(tally.overlaps + Overlaps(start, run)))
    decreases |run|
  {
    if run != [] {
      NextKeepsCounted(start, run[0], tally);
      NextKeepsCleanupsCounted(start, run[0]);
      RunKeepsCounts(Next(start, run[0]), run[1..], s, Grown(start, run[0], tally));
    }
  }

  /**
   For any number of workers, in any interleaving, with any failures: each manager beyond the
   first is paid for by a file that a cleanup tried to remove, by a manager that exited, or by
   a publication that failed. An idle manager leaves by way of a cleanup. A cleanup pays for at
   most two managers, and for one only unless a manager was spawned while an unlocked cleanup
   was half done.
   */
  lemma SpawnedIsBounded(n: nat, run: seq<Action>, s: State)
    requires Leads(Init(n), run, s)
    ensures Spawned(s) <= 1 + s.unlinks + s.exits + s.failures
    ensures Spawned(s) <= 1 + 2 * s.cleanups + s.exits + s.failures
    ensures Spawned(s) <= 1 + s.cleanups + Overlaps(Init(n), run) + s.exits + s.failures
  {
    NoneCounted(Init(n).workers, MidCleanup);
    RunKeepsCounts(Init(n), run, s, PerFile);
    RunKeepsCounts(Init(n), run, s, PerCleanup(0));
  }

  /**
   A cleanup pays for at most one manager in a run that spawns none while an unlocked cleanup
   stands between its two removals. Everything else may interleave, locked cleanups included.
   */
  lemma WholeCleanupsPayForOne(n: nat, run: seq<Action>, s: State)
    requires Leads(Init(n), run, s) && Overlaps(Init(n), run) == 0
    ensures OneForEach(s)
  {
    SpawnedIsBounded(n, run, s);
  }

  /** One manager, and one more for each cleanup, exit and failed publication. */
  predicate OneForEach(s: State) {
    Spawned(s) <= 1 + s.cleanups + s.exits + s.failures
  }

  /** The lock does what it is for: at no time are two workers between taking and releasing it. */
  lemma LockIsExclusive(n: nat, run: seq<Action>, s: State, v: nat, w: nat)
    requires Leads(Init(n), run, s) && v < |s.workers| && w < |s.workers|
    requires Holding(s.workers[v]) && Holding(s.workers[w])
    ensures v == w
  {
    NoneCounted(Init(n).workers, MidCleanup);
    RunKeepsCounts(Init(n), run, s, PerFile);
  }

  // ---------------------------------------------------------------- calm runs share one manager

  /**
   Nothing fails and no manager exits, idle or not, and a meta file is written in one go: once
   it is open only its writer moves.
   */
  ghost predicate Calm(s: State, a: Action) {
    && (a.Step? ==> a.ok)
    && !a.Exit? && !a.IdleSocket?
    && forall w | 0 <= w < |s.workers| && s.workers[w].WriteMeta? :: a == Step(w, true)
  }

  ghost predicate CalmRun(start: State, run: seq<Action>)
    decreases |run|
  {
    run != [] ==> Enabled(start, run[0]) && Calm(start, run[0]) && CalmRun(Next(start, run[0]), run[1..])
  }

  /** Where workers can be before the first manager is spawned, while it is published, and after. */
  predicate Before(pc: Pc) {
    pc.CheckSocket? || pc.AwaitLock? || pc.ClearSocket? || pc.ClearMeta? || pc.SpawnManager?
  }

  predicate During(pc: Pc) {
    || pc == CheckSocket(false) || pc == CheckMeta(false) || pc == AwaitLock
    || pc == AwaitSocket(0) || pc == OpenMeta(0) || pc == WriteMeta(0)
  }

  predicate After(pc: Pc) {
    match pc
    case CheckSocket(_) => true
    case CheckMeta(_) => true
    case CheckStale(_) => true
    case LoadMeta(_) => true
    case CheckIsSocket(_, key) => key == 0
    case ConnectKnown(_, key) => key == 0
    case AwaitLock => true
    case ConnectOwn(own) => own == 0
    case Unlock(result) => result == Some(0)
    case Returned(owner) => owner == 0
    case _ => false
  }

  predicate Fresh(s: State) {
    && s.managers == [] && s.socket == None && s.meta == NoMeta && s.clients == []
    && forall w | 0 <= w < |s.workers| :: Before(s.workers[w])
  }

  /** One worker has spawned the manager and is making it known. */
  predicate BeingPublished(s: State) {
    && |s.managers| == 1 && (s.managers[0] == Starting || s.managers[0] == Listening) && s.clients == []
    && s.socket == (if s.managers[0] == Listening then Some(0) else None)
    && s.lock != None && s.lock.value < |s.workers| && Publishing(s.workers[s.lock.value])
    && (s.workers[s.lock.value] != AwaitSocket(0) ==> s.socket == Some(0))
    && s.meta == (if s.workers[s.lock.value] == WriteMeta(0) then Partial(0) else NoMeta)
    && forall w | 0 <= w < |s.workers| :: During(s.workers[w])
  }

  predicate Shared(s: State) {
    && |s.managers| == 1 && s.managers[0] == Listening && s.socket == Some(0) && s.meta == Full(0)
    && (forall i | 0 <= i < |s.clients| :: s.clients[i] == 0)
    && forall w | 0 <= w < |s.workers| :: After(s.workers[w])
  }

  predicate InOrder(s: State) {
    && Exclusive(s)
    && s.cleanups == s.unlinks == s.exits == s.failures == 0
    && (Fresh(s) || BeingPublished(s) || Shared(s))
  }

  lemma FreshMovesOn(s: State, w: nat)
    requires InOrder(s) && Fresh(s) && Enabled(s, Step(w, true))
    ensures InOrder(StepWorker(s, w, true))
  {
    StepKeepsExclusive(s, w, true);
    assert Before(s.workers[w]);
    var s' := StepWorker(s, w, true);
    if s.workers[w] == SpawnManager {
      forall v | 0 <= v < |s'.workers| ensures During(s'.workers[v]) {
        assert Before(s.workers[v]) && (v != w ==> !Holding(s.workers[v]));
      }
    }
  }

  lemma PublishingMovesOn(s: State, w: nat)
    requires InOrder(s) && BeingPublished(s) && Enabled(s, Step(w, true)) && Calm(s, Step(w, true))
    ensures InOrder(StepWorker(s, w, true))
  {
    StepKeepsExclusive(s, w, true);
    assert During(s.workers[w]);
    var s' := StepWorker(s, w, true);
    if s.workers[w] == WriteMeta(0) {
      forall v | 0 <= v < |s'.workers| ensures After(s'.workers[v]) {
        assert During(s.workers[v]) && (v != w ==> !Holding(s.workers[v]));
      }
    } else if s.workers[w] == OpenMeta(0) {
      assert s'.lock == Some(w) && s'.workers[w] == WriteMeta(0);
    }
  }

  lemma SharedMovesOn(s: State, w: nat)
    requires InOrder(s) && Shared(s) && Enabled(s, Step(w, true))
    ensures InOrder(StepWorker(s, w, true))
  {
    StepKeepsExclusive(s, w, true);
    assert After(s.workers[w]);
  }

  lemma CalmKeepsOrder(s: State, a: Action)
    requires InOrder(s) && Enabled(s, a) && Calm(s, a)
    ensures InOrder(Next(s, a))
  {
    if a.Step? {
      if Fresh(s) {
        FreshMovesOn(s, a.worker);
      } else if BeingPublished(s) {
        PublishingMovesOn(s, a.worker);
      } else {
        SharedMovesOn(s, a.worker);
      }
    }
  }

  lemma {:induction false} CalmRunKeepsOrder(start: State, run: seq<Action>, s: State)
    requires InOrder(start) && CalmRun(start, run) && Leads(start, run, s)
    ensures InOrder(s)
    decreases |run|
  {
    if run != [] {
      CalmKeepsOrder(start, run[0]);
      CalmRunKeepsOrder(Next(start, run[0]), run[1..], s);
    }
  }

  /**
   From no files, a calm run never spawns a second manager, cleans nothing up, lets no worker
   fail, and connects every client to the one manager, which is there once any worker is done.
   */
  lemma CalmRunSharesOneManager(n: nat, run: seq<Action>, s: State)
    requires CalmRun(Init(n), run) && Leads(Init(n), run, s)
    ensures Spawned(s) <= 1 && s.cleanups == 0
    ensures forall i | 0 <= i < |s.clients| :: s.clients[i] == 0 && Answers(s, 0)
    ensures forall w | 0 <= w < |s.workers| ::
              s.workers[w] != Raised && (s.workers[w].Returned? ==> s.workers[w] == Returned(0) && Spawned(s) == 1)
  {
    CalmRunKeepsOrder(Init(n), run, s);
    forall w | 0 <= w < |s.workers|
      ensures s.workers[w] != Raised && (s.workers[w].Returned? ==> s.workers[w] == Returned(0) && Spawned(s) == 1)
    {
      assert Before(s.workers[w]) || During(s.workers[w]) || After(s.workers[w]);
    }
  }

  // ---------------------------------------------------------------- runs that do happen

  predicate All(run: seq<Action>, allowed: Action -> bool) {
    forall i | 0 <= i < |run| :: allowed(run[i])
  }

  /** Nothing fails and no manager exits; the steps may interleave in any way. */
  predicate IsSmooth(a: Action) {
    (a.Step? ==> a.ok) && !a.Exit? && NotIdle(a)
  }

  predicate NotIdle(a: Action) {
    !a.IdleSocket? && !a.IdleMeta?
  }

  predicate Smooth(run: seq<Action>) {
    All(run, IsSmooth)
  }

  /** The idle timeout is off. */
  predicate NeverIdle(run: seq<Action>) {
    All(run, NotIdle)
  }

  /** One worker alone moves, and the manager it spawns. */
  function Alone(w: nat, m: nat): Action -> bool {
    (a: Action) => a == Step(w, true) || a == Step(w, false) || a == Bind(m)
  }

  lemma {:induction false} Extend(start: State, run: seq<Action>, s: State, a: Action)
    returns (longer: seq<Action>, s': State)
    requires Leads(start, run, s) && Enabled(s, a)
    ensures longer == run + [a] && s' == Next(s, a) && Leads(start, longer, s')
    decreases |run|
  {
    longer, s' := run + [a], Next(s, a);
    if run == [] {
      assert longer[1..] == [];
    } else {
      var rest, _ := Extend(Next(start, run[0]), run[1..], s, a);
      assert longer[1..] == rest;
    }
  }

  lemma Takes(start: State, run: seq<Action>, s: State, a: Action, allowed: Action -> bool)
    returns (longer: seq<Action>, s': State)
    requires Leads(start, run, s) && All(run, allowed) && Enabled(s, a) && allowed(a)
    ensures s' == Next(s, a) && Leads(start, longer, s') && All(longer, allowed)
  {
    longer, s' := Extend(start, run, s, a);
  }

  lemma Steps(start: State, run: seq<Action>, s: State, w: nat, allowed: Action -> bool)
    returns (longer: seq<Action>, s': State)
    requires Leads(start, run, s) && All(run, allowed) && Enabled(s, Step(w, true)) && allowed(Step(w, true))
    ensures s' == StepWorker(s, w, true) && Leads(start, longer, s') && All(longer, allowed)
  {
    longer, s' := Takes(start, run, s, Step(w, true), allowed);
  }

  // ---------------------------------------------------------------- one worker alone

  predicate Works(s: State, w: nat, pc: Pc) {
    w < |s.workers| && s.workers[w] == pc
  }

  /** What a look at the files comes to: no manager, a manager connected to, or files cleaned up. */
  function Looked(s: State, w: nat, locked: bool): State
    requires w < |s.workers|
  {
    if s.socket == None || s.meta == NoMeta then At(s, w, NoManager(locked))
    else if s.meta.Full? && Answers(s, s.meta.owner) then
      At(s, w, if locked then Unlock(Some(s.meta.owner)) else Returned(s.meta.owner)).(
        clients := s.clients + [s.meta.owner])
    else
      At(s, w, NoManager(locked)).(socket := None, meta := NoMeta, cleanups := s.cleanups + 1, unlinks := s.unlinks + 2)
  }

  lemma Judges(start: State, run0: seq<Action>, s0: State, w: nat, locked: bool, notices: bool, allowed: Action -> bool)
    returns (run: seq<Action>, s: State)
    requires Leads(start, run0, s0) && All(run0, allowed) && allowed(Step(w, true)) && allowed(Step(w, notices))
    requires Works(s0, w, CheckStale(locked)) && s0.socket != None && s0.meta != NoMeta
    ensures Leads(start, run, s) && All(run, allowed)
    ensures s == if s0.meta.Full? && Answers(s0, s0.meta.owner) then Looked(s0, w, locked)
                 else At(s0, w, UnlinkSocket(locked))
  {
    run, s := Takes(start, run0, s0, Step(w, notices), allowed);
    if s.workers[w] == LoadMeta(locked) {
      run, s := Steps(start, run, s, w, allowed);
      if s0.meta.Full? {
        run, s := Steps(start, run, s, w, allowed);
        run, s := Steps(start, run, s, w, allowed);
      }
    }
    assert s.workers == s0.workers[w := s.workers[w]];
  }

  lemma CleansUp(start: State, run0: seq<Action>, s0: State, w: nat, locked: bool, allowed: Action -> bool)
    returns (run: seq<Action>, s: State)
    requires Leads(start, run0, s0) && All(run0, allowed) && allowed(Step(w, true))
    requires Works(s0, w, UnlinkSocket(locked)) && s0.socket != None && s0.meta != NoMeta
    ensures Leads(start, run, s) && All(run, allowed)
    ensures s == At(s0, w, NoManager(locked)).(socket := None, meta := NoMeta, cleanups := s0.cleanups + 1,
                                              unlinks := s0.unlinks + 2)
  {
    run, s := Steps(start, run0, s0, w, allowed);
    run, s := Steps(start, run, s, w, allowed);
    assert s.workers == s0.workers[w := NoManager(locked)];
  }

  lemma LooksOn(start: State, run0: seq<Action>, s0: State, w: nat, locked: bool, notices: bool,
                allowed: Action -> bool)
    returns (run: seq<Action>, s: State)
    requires Leads(start, run0, s0) && All(run0, allowed) && allowed(Step(w, true)) && allowed(Step(w, notices))
    requires Works(s0, w, CheckStale(locked)) && s0.socket != None && s0.meta != NoMeta
    ensures Leads(start, run, s) && All(run, allowed) && s == Looked(s0, w, locked)
  {
    run, s := Judges(start, run0, s0, w, locked, notices, allowed);
    if s.workers[w] == UnlinkSocket(locked) {
      run, s := CleansUp(start, run, s, w, locked, allowed);
      assert s.workers == s0.workers[w := NoManager(locked)];
    }
  }

  lemma LookedAlike(a: State, b: State, w: nat, pc: Pc, locked: bool)
    requires w < |a.workers| && b == At(a, w, pc)
    ensures Looked(b, w, locked) == Looked(a, w, locked)
  {
    assert b.workers[w := NoManager(locked)] == a.workers[w := NoManager(locked)];
    if a.meta.Full? {
      var done := if locked then Unlock(Some(a.meta.owner)) else Returned(a.meta.owner);
      assert b.workers[w := done] == a.workers[w := done];
    }
  }

  /** The look at the files, undisturbed, whether or not a dead owner is noticed. */
  lemma Looks(start: State, run0: seq<Action>, s0: State, w: nat, locked: bool, notices: bool, allowed: Action -> bool)
    returns (run: seq<Action>, s: State)
    requires Leads(start, run0, s0) && All(run0, allowed) && allowed(Step(w, true)) && allowed(Step(w, notices))
    requires Works(s0, w, CheckSocket(locked))
    ensures Leads(start, run, s) && All(run, allowed) && s == Looked(s0, w, locked)
  {
    run, s := Steps(start, run0, s0, w, allowed);
    if s0.socket != None {
      run, s := Steps(start, run, s, w, allowed);
      assert s.workers == s0.workers[w := s.workers[w]];
      if s0.meta != NoMeta {
        LookedAlike(s0, s, w, CheckStale(locked), locked);
        run, s := LooksOn(start, run, s, w, locked, notices, allowed);
      }
    }
  }

  /** What a worker leaves that spawns a manager and is connected to it. */
  function Spawning(s: State, w: nat): State
    requires w < |s.workers|
  {
    var m := |s.managers|;
    At(s, w, Returned(m)).(socket := Some(m), meta := Full(m), managers := s.managers + [Listening],
                           clients := s.clients + [m], lock := None)
  }

  /** It clears the files and starts a manager, which binds its socket. */
  lemma Starts(start: State, run0: seq<Action>, s0: State, w: nat, allowed: Action -> bool)
    returns (run: seq<Action>, s: State)
    requires Leads(start, run0, s0) && All(run0, allowed) && allowed(Step(w, true)) && allowed(Bind(|s0.managers|))
    requires Works(s0, w, ClearSocket)
    ensures Leads(start, run, s) && All(run, allowed)
    ensures var m := |s0.managers|;
            s == At(s0, w, AwaitSocket(m)).(socket := Some(m), meta := NoMeta, managers := s0.managers + [Listening])
  {
    var m := |s0.managers|;
    run, s := Steps(start, run0, s0, w, allowed);
    run, s := Steps(start, run, s, w, allowed);
    run, s := Steps(start, run, s, w, allowed);
    assert s.managers[m] == Starting;
    run, s := Takes(start, run, s, Bind(m), allowed);
    assert s.managers == s0.managers + [Listening];
    assert s.workers == s0.workers[w := AwaitSocket(m)];
  }

  lemma Publishes(start: State, run0: seq<Action>, s0: State, w: nat, allowed: Action -> bool)
    returns (run: seq<Action>, s: State)
    requires Leads(start, run0, s0) && All(run0, allowed) && allowed(Step(w, true)) && allowed(Bind(|s0.managers|))
    requires Works(s0, w, ClearSocket)
    ensures Leads(start, run, s) && All(run, allowed)
    ensures var m := |s0.managers|;
            s == At(s0, w, WriteMeta(m)).(socket := Some(m), meta := Partial(m), managers := s0.managers + [Listening])
  {
    run, s := Starts(start, run0, s0, w, allowed);
    run, s := Steps(start, run, s, w, allowed);
    run, s := Steps(start, run, s, w, allowed);
    assert s.workers == s0.workers[w := WriteMeta(|s0.managers|)];
  }

  lemma Finishes(start: State, run0: seq<Action>, s0: State, w: nat, m: nat, allowed: Action -> bool)
    returns (run: seq<Action>, s: State)
    requires Leads(start, run0, s0) && All(run0, allowed) && allowed(Step(w, true))
    requires Works(s0, w, WriteMeta(m)) && s0.meta == Partial(m) && Answers(s0, m)
    ensures Leads(start, run, s) && All(run, allowed)
    ensures s == At(s0, w, Returned(m)).(meta := Full(m), lock := None, clients := s0.clients + [m])
  {
    run, s := Steps(start, run0, s0, w, allowed);
    run, s := Steps(start, run, s, w, allowed);
    run, s := Steps(start, run, s, w, allowed);
    assert s.workers == s0.workers[w := Returned(m)];
  }

  /** Inside the lock a worker that found no manager spawns one and is connected to it. */
  lemma SpawnsLocked(start: State, run0: seq<Action>, s0: State, w: nat, allowed: Action -> bool)
    returns (run: seq<Action>, s: State)
    requires Leads(start, run0, s0) && All(run0, allowed) && allowed(Step(w, true)) && allowed(Bind(|s0.managers|))
    requires Works(s0, w, ClearSocket)
    ensures Leads(start, run, s) && All(run, allowed) && s == Spawning(s0, w)
  {
    run, s := Publishes(start, run0, s0, w, allowed);
    run, s := Finishes(start, run, s, w, |s0.managers|, allowed);
    assert s.workers == s0.workers[w := Returned(|s0.managers|)];
  }

  /** What a worker inside the lock comes to: connected to the manager there is, or to a new one. */
  function Served(s: State, w: nat): State
    requires w < |s.workers|
  {
    if s.socket != None && s.meta.Full? && Answers(s, s.meta.owner) then
      At(s, w, Returned(s.meta.owner)).(clients := s.clients + [s.meta.owner], lock := None)
    else Spawning(Looked(s, w, true), w)
  }

  /** Whatever the files say, a worker that has the lock and is left alone returns with a manager. */
  lemma LockedWorkerIsServed(start: State, run0: seq<Action>, s0: State, w: nat, notices: bool, allowed: Action -> bool)
    returns (run: seq<Action>, s: State)
    requires Leads(start, run0, s0) && All(run0, allowed)
    requires allowed(Step(w, true)) && allowed(Step(w, notices)) && allowed(Bind(|s0.managers|))
    requires Works(s0, w, CheckSocket(true))
    ensures Leads(start, run, s) && All(run, allowed) && s == Served(s0, w)
  {
    run, s := Looks(start, run0, s0, w, true, notices, allowed);
    if s.workers[w] == ClearSocket {
      run, s := SpawnsLocked(start, run, s, w, allowed);
    } else {
      run, s := Steps(start, run, s, w, allowed);
      assert s.workers == s0.workers[w := Returned(s0.meta.owner)];
    }
  }

  /** A worker that waited for the lock is served by the manager published in the meantime, if it is alive. */
  lemma WaiterIsServed(start: State, run0: seq<Action>, s0: State, w: nat, notices: bool, allowed: Action -> bool)
    returns (run: seq<Action>, s: State)
    requires Leads(start, run0, s0) && All(run0, allowed)
    requires allowed(Step(w, true)) && allowed(Step(w, notices)) && allowed(Bind(|s0.managers|))
    requires Works(s0, w, AwaitLock) && s0.lock == None
    ensures Leads(start, run, s) && All(run, allowed) && s == Served(s0, w)
  {
    run, s := Steps(start, run0, s0, w, allowed);
    var s1 := s;
    run, s := LockedWorkerIsServed(start, run, s, w, notices, allowed);
    ServedAlike(s0, s1, w);
  }

  lemma ServedAlike(a: State, b: State, w: nat)
    requires w < |a.workers| && b == At(a, w, CheckSocket(true)).(lock := Some(w))
    ensures Served(a, w) == Served(b, w)
  {
    var m := |a.managers|;
    if a.socket != None && a.meta.Full? && Answers(a, a.meta.owner) {
      assert b.workers[w := Returned(a.meta.owner)] == a.workers[w := Returned(a.meta.owner)];
    } else {
      assert Looked(b, w, true).workers[w := Returned(m)] == Looked(a, w, true).workers[w := Returned(m)];
    }
  }

  /**
   Left alone with a free lock, a worker returns connected to a manager that listens, whatever
   the files say: to the one they name if it answers, else to a new one that is published. What
   a dead manager left behind is cleaned up, whether or not its death is noticed.
   */
  lemma LoneWorkerIsServed(s0: State, w: nat, notices: bool) returns (run: seq<Action>, s: State)
    requires Works(s0, w, CheckSocket(false)) && s0.lock == None
    ensures Leads(s0, run, s) && All(run, Alone(w, |s0.managers|))
    ensures if s0.meta.Full? && Answers(s0, s0.meta.owner) then
              s == At(s0, w, Returned(s0.meta.owner)).(clients := s0.clients + [s0.meta.owner])
            else
              var m := |s0.managers|;
              && s.workers == s0.workers[w := Returned(m)] && s.lock == None
              && s.socket == Some(m) && s.meta == Full(m) && s.managers == s0.managers + [Listening]
              && s.clients == s0.clients + [m] && s.exits == s0.exits && s.failures == s0.failures
  {
    var allowed := Alone(w, |s0.managers|);
    run, s := Looks(s0, [], s0, w, false, notices, allowed);
    if s.workers[w] == AwaitLock {
      run, s := WaiterIsServed(s0, run, s, w, notices, allowed);
      assert s.workers == s0.workers[w := Returned(|s0.managers|)];
    }
  }

  /** Left alone with a free lock, a worker that finds no manager spawns one and is connected to it. */
  lemma LoneWorkerSpawns(start: State, run0: seq<Action>, s0: State, w: nat)
    returns (run: seq<Action>, s: State)
    requires Leads(start, run0, s0) && Smooth(run0)
    requires Works(s0, w, CheckSocket(false)) && s0.lock == None && (s0.socket == None || s0.meta == NoMeta)
    ensures Leads(start, run, s) && Smooth(run) && s == Spawning(s0, w)
  {
    run, s := Looks(start, run0, s0, w, false, true, IsSmooth);
    run, s := WaiterIsServed(start, run, s, w, true, IsSmooth);
    assert s.workers == s0.workers[w := Returned(|s0.managers|)];
  }

  lemma Respawns(start: State, run0: seq<Action>, s0: State, w: nat) returns (run: seq<Action>, s: State)
    requires Leads(start, run0, s0) && Smooth(run0)
    requires w < |s0.workers| && s0.workers[w].Returned? && s0.lock == None
    requires s0.socket == None || s0.meta == NoMeta
    ensures Leads(start, run, s) && Smooth(run) && s == Spawning(s0, w)
  {
    run, s := Takes(start, run0, s0, Again(w), IsSmooth);
    run, s := LoneWorkerSpawns(start, run, s, w);
    assert s.workers == s0.workers[w := Returned(|s0.managers|)];
  }

  lemma ReadyToSpawn(start: State, run0: seq<Action>, s0: State, w: nat) returns (run: seq<Action>, s: State)
    requires Leads(start, run0, s0) && Smooth(run0)
    requires Works(s0, w, CheckSocket(false)) && s0.lock == None && (s0.socket == None || s0.meta == NoMeta)
    ensures Leads(start, run, s) && Smooth(run) && s == At(s0, w, ClearSocket).(lock := Some(w))
  {
    run, s := Looks(start, run0, s0, w, false, true, IsSmooth);
    run, s := Steps(start, run, s, w, IsSmooth);
    run, s := Looks(start, run, s, w, true, true, IsSmooth);
    assert s.workers == s0.workers[w := ClearSocket];
  }

  /** A half-written meta file sends a reader to the cleanup. */
  lemma ReaderMeetsHalfWrittenMeta(start: State, run0: seq<Action>, s0: State, w: nat)
    returns (run: seq<Action>, s: State)
    requires Leads(start, run0, s0) && Smooth(run0)
    requires Works(s0, w, CheckSocket(false)) && s0.socket != None && s0.meta.Partial?
    ensures Leads(start, run, s) && Smooth(run)
    ensures s == At(s0, w, UnlinkSocket(false))
  {
    run, s := Steps(start, run0, s0, w, IsSmooth);
    run, s := Steps(start, run, s, w, IsSmooth);
    run, s := Judges(start, run, s, w, false, true, IsSmooth);
    assert s.workers == s0.workers[w := UnlinkSocket(false)];
  }

  /** Manager 0 is published while worker 1, which met its meta file half written, is about to clean up. */
  lemma CleanupOutlivesPublication(n: nat) returns (run: seq<Action>, s: State)
    requires n >= 2
    ensures Leads(Init(n), run, s) && Smooth(run)
    ensures s == State(Some(0), Full(0), None, Init(n).workers[1 := UnlinkSocket(false)][0 := Returned(0)],
                       [Listening], [0], 0, 0, 0, 0)
  {
    var start := Init(n);
    run, s := ReadyToSpawn(start, [], start, 0);
    run, s := Publishes(start, run, s, 0, IsSmooth);
    run, s := ReaderMeetsHalfWrittenMeta(start, run, s, 1);
    run, s := Finishes(start, run, s, 0, 0, IsSmooth);
    assert s.workers == start.workers[1 := UnlinkSocket(false)][0 := Returned(0)];
  }

  /** The two removals of that one cleanup each cost a manager. */
  lemma RemovalsApartCostTwo(start: State, run0: seq<Action>, s0: State) returns (run: seq<Action>, s: State)
    requires Leads(start, run0, s0) && Smooth(run0)
    requires |s0.workers| >= 2 && s0.workers[0] == Returned(0) && s0.workers[1] == UnlinkSocket(false)
    requires s0 == State(Some(0), Full(0), None, s0.workers, [Listening], [0], 0, 0, 0, 0)
    ensures Leads(start, run, s) && Smooth(run)
    ensures s.managers == [Listening, Listening, Listening] && s.cleanups == 1 && s.exits == 0 && s.failures == 0
  {
    run, s := Steps(start, run0, s0, 1, IsSmooth);             // the socket of manager 0 is removed
    run, s := Respawns(start, run, s, 0);            // manager 1
    run, s := Steps(start, run, s, 1, IsSmooth);               // the meta file of manager 1 is removed
    run, s := Respawns(start, run, s, 0);            // manager 2
  }

  /**
   Writing the meta file is not one step, and neither is a cleanup. A worker that reads the
   half-written file begins a cleanup; its two removals, apart in time, cost two managers that
   were alive and published. So one manager plus one per cleanup is not a bound, although
   nothing fails: as soon as there are two workers, a run spawns three managers with a single
   cleanup.
   */
  lemma OneCleanupCanCostTwoManagers(n: nat) returns (run: seq<Action>, s: State)
    requires n >= 2
    ensures Leads(Init(n), run, s) && Smooth(run)
    ensures s.managers == [Listening, Listening, Listening] && s.cleanups == 1 && s.exits == 0 && s.failures == 0
  {
    run, s := CleanupOutlivesPublication(n);
    run, s := RemovalsApartCostTwo(Init(n), run, s);
  }

  lemma {:induction false} Join(start: State, run: seq<Action>, mid: State, more: seq<Action>, s: State)
    requires Leads(start, run, mid) && Leads(mid, more, s)
    ensures Leads(start, run + more, s)
    decreases |run|
  {
    if run == [] {
      assert run + more == more;
    } else {
      assert (run + more)[1..] == run[1..] + more;
      Join(Next(start, run[0]), run[1..], mid, more, s);
    }
  }

  /** The same after a run of any kind. */
  lemma RespawnsAfter(start: State, run0: seq<Action>, s0: State, w: nat) returns (run: seq<Action>, s: State)
    requires Leads(start, run0, s0) && w < |s0.workers| && s0.workers[w].Returned? && s0.lock == None
    requires s0.socket == None || s0.meta == NoMeta
    ensures Leads(start, run, s) && s == Spawning(s0, w)
  {
    var more;
    more, s := Respawns(s0, [], s0, w);
    Join(start, run0, s0, more, s);
    run := run0 + more;
  }

  /**
   The shutdown of an idle manager is such a cleanup too: between its removals another manager
   is spawned and published, whose meta file then goes. One worker is enough for it. No worker
   cleans anything up, nothing fails, one manager leaves, and there are three.
   */
  lemma IdleShutdownCanCostTwoManagers(n: nat) returns (run: seq<Action>, s: State)
    requires n >= 1
    ensures Leads(Init(n), run, s)
    ensures s.managers == [Gone, Listening, Listening] && s.cleanups == 1 && s.exits == 0 && s.failures == 0
  {
    var start := Init(n);
    run, s := LoneWorkerSpawns(start, [], start, 0);      // manager 0
    run, s := Extend(start, run, s, IdleSocket(0, true));
    run, s := RespawnsAfter(start, run, s, 0);            // manager 1
    run, s := Extend(start, run, s, IdleMeta(0, true));   // the meta file of manager 1 is removed
    run, s := RespawnsAfter(start, run, s, 0);            // manager 2
  }

  // ---------------------------------------------------------------- what makes a worker fail

  /** A spawn refused, a startup given up, or no connection to the manager just spawned. */
  predicate GivesUp(s: State, a: Action) {
    && a.Step? && a.worker < |s.workers|
    && match s.workers[a.worker]
       case SpawnManager => !a.ok
       case AwaitSocket(_) => !a.ok
       case ConnectOwn(own) => !a.ok || !Answers(s, own)
       case _ => false
  }

  predicate Failing(s: State, w: nat) {
    w < |s.workers| && (s.workers[w] == Raised || s.workers[w] == Unlock(None))
  }

  /** Over all runs a worker raises only after it gave up in one of these ways. */
  lemma {:induction false} RaisesOnlyAfterGivingUp(start: State, run: seq<Action>, s: State, w: nat)
    returns (i: nat, at: State)
    requires Leads(start, run, s) && w < |start.workers| && !Failing(start, w) && Failing(s, w)
    ensures i < |run| && Leads(start, run[..i], at) && GivesUp(at, run[i]) && run[i].worker == w
    decreases |run|
  {
    var next := Next(start, run[0]);
    if Failing(next, w) {
      i, at := 0, start;
    } else {
      i, at := RaisesOnlyAfterGivingUp(next, run[1..], s, w);
      i := i + 1;
      assert run[..i][1..] == run[1..][..i - 1];
    }
  }

  /** A worker that gave up releases the lock and raises; nothing else makes a startup or a worker fail. */
  lemma GivingUpRaises(start: State, run0: seq<Action>, s0: State, a: Action) returns (run: seq<Action>, s: State)
    requires Leads(start, run0, s0) && Enabled(s0, a) && GivesUp(s0, a)
    ensures Leads(start, run, s) && s.workers == s0.workers[a.worker := Raised] && s.lock == None
    ensures s.socket == s0.socket && s.meta == s0.meta && s.managers == s0.managers && s.clients == s0.clients
  {
    run, s := Extend(start, run0, s0, a);
    run, s := Extend(start, run, s, Step(a.worker, true));
    assert s.workers == s0.workers[a.worker := Raised];
  }

  /** A meta file that cannot be opened or written does not keep the worker from its manager. */
  lemma UnwrittenMetaIsNoFailure(start: State, run0: seq<Action>, s0: State, w: nat, own: nat, opens: bool)
    returns (run: seq<Action>, s: State)
    requires Leads(start, run0, s0) && Works(s0, w, OpenMeta(own)) && Answers(s0, own)
    ensures Leads(start, run, s) && s.workers == s0.workers[w := Returned(own)]
    ensures s.clients == s0.clients + [own] && s.lock == None && s.failures == s0.failures + 1
    ensures s.meta == if opens then Partial(own) else s0.meta
  {
    run, s := Extend(start, run0, s0, Step(w, opens));
    if opens {
      run, s := Extend(start, run, s, Step(w, false));
    }
    run, s := Extend(start, run, s, Step(w, true));
    run, s := Extend(start, run, s, Step(w, true));
    assert s.workers == s0.workers[w := Returned(own)];
  }

  /** Whoever has returned was connected, and only to managers that were spawned. */
  predicate Connected(s: State) {
    && (forall i | 0 <= i < |s.clients| :: s.clients[i] < |s.managers|)
    && forall w | 0 <= w < |s.workers| ::
         && (s.workers[w].Returned? ==> s.workers[w].owner in s.clients)
         && (s.workers[w].Unlock? && s.workers[w].result.Some? ==> s.workers[w].result.value in s.clients)
  }

  lemma {:induction false} ReturnedIsConnected(start: State, run: seq<Action>, s: State)
    requires Connected(start) && Leads(start, run, s)
    ensures Connected(s)
    decreases |run|
  {
    if run != [] {
      ReturnedIsConnected(Next(start, run[0]), run[1..], s);
    }
  }

  // ---------------------------------------------------------------- when one for each is a bound

  lemma {:induction false} LoneWorkerNeverOverlaps(start: State, run: seq<Action>, s: State)
    requires |start.workers| <= 1 && !SomeLeaving(start) && NeverIdle(run) && Leads(start, run, s)
    ensures Overlaps(start, run) == 0
    decreases |run|
  {
    if run != [] {
      assert NotIdle(run[0]);
      LoneWorkerNeverOverlaps(Next(start, run[0]), run[1..], s);
    }
  }

  /**
   With the idle timeout off, one manager and one for each cleanup, exit and failed publication
   bounds every run exactly when there is at most one worker.
   */
  lemma OneForEachIffAlone(n: nat)
    ensures (forall run, s | Leads(Init(n), run, s) && NeverIdle(run) :: OneForEach(s)) <==> n <= 1
  {
    if n <= 1 {
      forall run, s | Leads(Init(n), run, s) && NeverIdle(run) ensures OneForEach(s) {
        LoneWorkerNeverOverlaps(Init(n), run, s);
        WholeCleanupsPayForOne(n, run, s);
      }
    } else {
      var run, s := OneCleanupCanCostTwoManagers(n);
      assert NeverIdle(run) && !OneForEach(s);
    }
  }

  /** With the timeout on it does so only when there is no worker at all. */
  lemma OneForEachIffNobody(n: nat)
    ensures (forall run, s | Leads(Init(n), run, s) :: OneForEach(s)) <==> n == 0
  {
    if n == 0 {
      forall run, s | Leads(Init(n), run, s) ensures OneForEach(s) {
        assert run == [];
      }
    } else {
      var run, s := IdleShutdownCanCostTwoManagers(n);
      assert !OneForEach(s);
      assert exists run, s :: Leads(Init(n), run, s) && !OneForEach(s);
    }
  }
}
