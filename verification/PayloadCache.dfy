/**
 The cache of assembled payloads, shared by worker processes.  A worker that does not find
 the cached file takes a lock, looks again, builds the payload, writes it to a `-part` file and
 renames that to its final name.  Every build embeds the time of its own worker, so two builds
 differ.

 Workers move one step at a time in any order.  A file is an inode, so that a rename under an
 open file behaves as it does on disk.
*/
module PayloadCache {
  import opened Basics

  type Bytes = seq<nat>
  type Inode = nat

  /** The lock of a module name, or the one for names without a lock. */
  datatype LockId = Named(name: string) | Generic

  datatype Place =
    | Looking                                // is there a cached file?
    | ReadingCached
    | Waiting                                // for the lock
    | Rechecking                             // from here to Leaving the lock is held
    | Building
    | Opening                                // the -part file
    | Writing(inode: Inode, written: nat)
    | Renaming
    | Leaving                                // giving the lock back
    | ReadingAfter
    | Finished
    | Failed(fileMissing: bool)

  datatype Worker = Worker(place: Place, data: Option<Bytes>)

  datatype State = State(workers: seq<Worker>, holders: map<LockId, nat>, part: Option<Inode>, cached: Option<Inode>,
                         content: map<Inode, Bytes>, nextInode: Inode, renames: nat)

  /**
   For each worker that wants the module of this cached file: the name it calls the module by, the
   names that had a lock of their own when the worker was forked, and the payload its build gives.
   The file goes by where the module was found, so workers may call one module by several names.
  */
  datatype Config = Config(name: nat -> string, known: nat -> set<string>, payload: nat -> Bytes)

  predicate Knows(c: Config, w: nat) {
    c.name(w) in c.known(w)
  }

  /** The lock a worker takes: a lock made after the worker was forked is not in its table. */
  function Lock(c: Config, w: nat): LockId {
    if Knows(c, w) then Named(c.name(w)) else Generic
  }

  /**
   `Go` is the next step of the code; `Write` puts out some bytes; `Raise` is an exception while
   building or writing.
  */
  datatype Move = Go | Write(n: nat) | Raise

  function Zeros(n: nat): Bytes {
    seq(n, _ => 0)
  }

  /** What a write of `b` at offset `at` makes of a file. */
  function Overlay(c: Bytes, at: nat, b: Bytes): Bytes {
    (if at <= |c| then c[..at] else c + Zeros(at - |c|)) + b + (if at + |b| <= |c| then c[at + |b|..] else [])
  }

  predicate HoldsLock(p: Place) {
    p.Rechecking? || p.Building? || p.Opening? || p.Writing? || p.Renaming? || p.Leaving?
  }

  predicate Over(p: Place) {
    p.Finished? || p.Failed?
  }

  predicate Enabled(c: Config, s: State, w: nat, m: Move) {
    && w < |s.workers|
    && var p := s.workers[w].place;
       match m
       case Go =>
         && !Over(p)
         && (p.Waiting? ==> Lock(c, w) !in s.holders)
         && (p.Writing? ==> p.written == |c.payload(w)|)
       case Write(n) => p.Writing? && p.inode in s.content && p.written + n <= |c.payload(w)|
       case Raise => p.Building? || p.Opening? || p.Writing?
  }

  function Put(s: State, w: nat, p: Place): State
    requires w < |s.workers|
  {
    s.(workers := s.workers[w := s.workers[w].(place := p)])
  }

  function Keep(s: State, w: nat, p: Place, data: Option<Bytes>): State
    requires w < |s.workers|
  {
    s.(workers := s.workers[w := Worker(p, data)])
  }

  function Release(c: Config, s: State, w: nat): State {
    s.(holders := s.holders - {Lock(c, w)})
  }

  function Step(c: Config, s: State, w: nat, m: Move): State
    requires Enabled(c, s, w, m)
  {
    var me := s.workers[w];
    match m
    case Raise => Release(c, Put(s, w, Failed(false)), w)
    case Write(n) =>
      var p := me.place;
      var more := c.payload(w)[p.written..p.written + n];
      var overlaid := Overlay(s.content[p.inode], p.written, more);
      Put(s, w, Writing(p.inode, p.written + n)).(content := s.content[p.inode := overlaid])
    case Go =>
      match me.place
      case Looking => if s.cached.Some? then Put(s, w, ReadingCached) else Put(s, w, Waiting)
      case ReadingCached => ReadFinal(s, w)
      case Waiting => Put(s, w, Rechecking).(holders := s.holders[Lock(c, w) := w])
      case Rechecking => if s.cached.Some? then Put(s, w, Leaving) else Put(s, w, Building)
      case Building => Keep(s, w, Opening, Some(c.payload(w)))
      case Opening =>
        // an existing -part file is truncated, otherwise a new one is made
        var i := if s.part.Some? then s.part.value else s.nextInode;
        Put(s, w, Writing(i, 0)).(part := Some(i), content := s.content[i := []],
                                  nextInode := if s.part.Some? then s.nextInode else s.nextInode + 1)
      case Writing(_, _) => Put(s, w, Renaming)
      case Renaming =>
        if s.part.None? then Release(c, Put(s, w, Failed(false)), w)
        else Put(s, w, Leaving).(cached := s.part, part := None, renames := s.renames + 1)
      case Leaving => Release(c, Put(s, w, if me.data.Some? then Finished else ReadingAfter), w)
      case ReadingAfter => ReadFinal(s, w)
      case _ => s
  }

  /** Reading the cached file, which fails when there is none. */
  function ReadFinal(s: State, w: nat): State
    requires w < |s.workers|
  {
    if s.cached.Some? && s.cached.value in s.content
      then Keep(s, w, Finished, Some(s.content[s.cached.value]))
      else Put(s, w, Failed(true))
  }

  function Initially(n: nat): State {
    State(seq(n, _ => Worker(Looking, None)), map[], None, None, map[], 0, 0)
  }

  // ---------------------------------------------------------------- runs

  datatype Turn = Turn(worker: nat, move: Move)

  predicate Run(c: Config, s: State, turns: seq<Turn>)
    decreases |turns|
  {
    || turns == []
    || (Enabled(c, s, turns[0].worker, turns[0].move) && Run(c, Step(c, s, turns[0].worker, turns[0].move), turns[1..]))
  }

  function Final(c: Config, s: State, turns: seq<Turn>): State
    requires Run(c, s, turns)
    decreases |turns|
  {
    if turns == [] then s else Final(c, Step(c, s, turns[0].worker, turns[0].move), turns[1..])
  }

  // ---------------------------------------------------------------- with one lock

  predicate OneLock(c: Config, lock: LockId, n: nat) {
    forall w: nat :: w < n ==> Lock(c, w) == lock
  }

  /** The cached file, when there is one. */
  function Published(s: State): Option<Bytes> {
    if s.cached.Some? && s.cached.value in s.content then Some(s.content[s.cached.value]) else None
  }

  /** What is true of each worker. */
  predicate WorkerOk(c: Config, s: State, lock: LockId, w: nat)
    requires w < |s.workers|
  {
    var me := s.workers[w];
    && (HoldsLock(me.place) <==> lock in s.holders && s.holders[lock] == w)
    && match me.place
       case Looking => me.data.None?
       case Waiting => me.data.None?
       case ReadingCached => me.data.None? && s.cached.Some?
       case Rechecking => me.data.None?
       case Building => me.data.None? && s.cached.None?
       case Opening => me.data == Some(c.payload(w)) && s.cached.None?
       case Writing(i, n) =>
         && me.data == Some(c.payload(w)) && s.cached.None?
         && s.part == Some(i) && n <= |c.payload(w)| && i in s.content && s.content[i] == c.payload(w)[..n]
       case Renaming =>
         && me.data == Some(c.payload(w)) && s.cached.None?
         && s.part.Some? && s.part.value in s.content && s.content[s.part.value] == c.payload(w)
       case Leaving => s.cached.Some? && (me.data.Some? ==> me.data == Published(s))
       case ReadingAfter => me.data.None? && s.cached.Some?
       case Finished => s.cached.Some? && me.data == Published(s)
       case Failed(missing) => !missing
  }

  /** The cached file is absent or the whole payload of one worker; it was put there by the only rename. */
  predicate CacheOk(c: Config, s: State) {
    && (s.part.Some? ==> s.part.value in s.content && s.part != s.cached)
    && (s.cached.Some? ==> s.cached.value in s.content)
    && (s.cached.Some? ==> exists w :: 0 <= w < |s.workers| && s.content[s.cached.value] == c.payload(w))
    && (forall i :: i in s.content ==> i < s.nextInode)
    && s.renames == if s.cached.Some? then 1 else 0
  }

  predicate Safe(c: Config, s: State, lock: LockId) {
    && OneLock(c, lock, |s.workers|)
    && (forall w :: 0 <= w < |s.workers| ==> WorkerOk(c, s, lock, w))
    && CacheOk(c, s)
    && (forall l :: l in s.holders ==> l == lock && s.holders[l] < |s.workers|)
  }

  lemma {:induction false} InitiallySafe(c: Config, lock: LockId, n: nat)
    requires OneLock(c, lock, n)
    ensures Safe(c, Initially(n), lock)
  {
  }

  lemma {:induction false} StepCacheOk(c: Config, s: State, lock: LockId, w: nat, m: Move)
    requires Safe(c, s, lock) && Enabled(c, s, w, m)
    ensures CacheOk(c, Step(c, s, w, m))
  {
    assert WorkerOk(c, s, lock, w);
    var t := Step(c, s, w, m);
    if t.cached.Some? {
      if s.cached.Some? {
        var b :| 0 <= b < |s.workers| && s.content[s.cached.value] == c.payload(b);
        assert t.content[t.cached.value] == c.payload(b);
      } else {
        assert t.content[t.cached.value] == c.payload(w);
      }
    }
  }

  lemma {:induction false} WriteOwnOk(c: Config, s: State, lock: LockId, w: nat, n: nat)
    requires Safe(c, s, lock) && Enabled(c, s, w, Write(n))
    ensures WorkerOk(c, Step(c, s, w, Write(n)), lock, w)
  {
    assert WorkerOk(c, s, lock, w);
    var at := s.workers[w].place.written;
    assert c.payload(w)[..at] + c.payload(w)[at..at + n] == c.payload(w)[..at + n];
  }

  lemma {:induction false} RaiseOwnOk(c: Config, s: State, lock: LockId, w: nat)
    requires Safe(c, s, lock) && Enabled(c, s, w, Raise)
    ensures WorkerOk(c, Step(c, s, w, Raise), lock, w)
  {
    assert WorkerOk(c, s, lock, w);
  }

  /** The steps outside the lock and into it. */
  lemma {:induction false} GoOutsideOk(c: Config, s: State, lock: LockId, w: nat)
    requires Safe(c, s, lock) && Enabled(c, s, w, Go) && !HoldsLock(s.workers[w].place)
    ensures WorkerOk(c, Step(c, s, w, Go), lock, w)
  {
    assert WorkerOk(c, s, lock, w);
  }

  /** The steps inside the lock and out of it. */
  lemma {:induction false} GoInsideOk(c: Config, s: State, lock: LockId, w: nat)
    requires Safe(c, s, lock) && Enabled(c, s, w, Go) && HoldsLock(s.workers[w].place)
    ensures WorkerOk(c, Step(c, s, w, Go), lock, w)
  {
    assert WorkerOk(c, s, lock, w);
    if s.workers[w].place.Writing? {
      assert c.payload(w)[..s.workers[w].place.written] == c.payload(w);
    }
  }

  lemma {:induction false} StepOwnOk(c: Config, s: State, lock: LockId, w: nat, m: Move)
    requires Safe(c, s, lock) && Enabled(c, s, w, m)
    ensures WorkerOk(c, Step(c, s, w, m), lock, w)
  {
    hide Safe, Enabled, WorkerOk, Step;
    assert w < |s.workers| by { EnabledWorker(c, s, w, m); }
    match m
    case Write(n) => WriteOwnOk(c, s, lock, w, n);
    case Raise => RaiseOwnOk(c, s, lock, w);
    case Go =>
      if HoldsLock(s.workers[w].place) {
        GoInsideOk(c, s, lock, w);
      } else {
        GoOutsideOk(c, s, lock, w);
      }
  }

  lemma {:induction false} EnabledWorker(c: Config, s: State, w: nat, m: Move)
    requires Enabled(c, s, w, m)
    ensures w < |s.workers| == |Step(c, s, w, m).workers|
  {
  }

  lemma {:induction false} StepOthersOk(c: Config, s: State, lock: LockId, w: nat, m: Move, v: nat)
    requires Safe(c, s, lock) && Enabled(c, s, w, m) && v < |s.workers| && v != w
    ensures WorkerOk(c, Step(c, s, w, m), lock, v)
  {
    assert WorkerOk(c, s, lock, w) && WorkerOk(c, s, lock, v);
    assert Lock(c, w) == lock;
  }

  lemma {:induction false} StepHolders(c: Config, s: State, lock: LockId, w: nat, m: Move)
    requires Safe(c, s, lock) && Enabled(c, s, w, m)
    ensures var t := Step(c, s, w, m);
            && OneLock(c, lock, |t.workers|)
            && forall l :: l in t.holders ==> l == lock && t.holders[l] < |t.workers|
  {
    hide WorkerOk, CacheOk;
    assert Lock(c, w) == lock;
  }

  /** Every step of every worker keeps the protocol safe. */
  lemma {:induction false} StepSafe(c: Config, s: State, lock: LockId, w: nat, m: Move)
    requires Safe(c, s, lock) && Enabled(c, s, w, m)
    ensures Safe(c, Step(c, s, w, m), lock)
    ensures s.cached.Some? ==> Published(Step(c, s, w, m)) == Published(s)
  {
    hide WorkerOk, CacheOk, Step, Enabled, OneLock, Published;
    EnabledWorker(c, s, w, m);
    var t := Step(c, s, w, m);
    StepOwnOk(c, s, lock, w, m);
    forall v | 0 <= v < |s.workers|
      ensures WorkerOk(c, t, lock, v)
    {
      if v != w {
        StepOthersOk(c, s, lock, w, m, v);
      }
    }
    StepCacheOk(c, s, lock, w, m);
    StepHolders(c, s, lock, w, m);
    StepKeepsPublished(c, s, lock, w, m);
  }

  lemma {:induction false} StepKeepsPublished(c: Config, s: State, lock: LockId, w: nat, m: Move)
    requires Safe(c, s, lock) && Enabled(c, s, w, m)
    ensures s.cached.Some? ==> Published(Step(c, s, w, m)) == Published(s)
    ensures |Step(c, s, w, m).workers| == |s.workers|
  {
    assert WorkerOk(c, s, lock, w);
  }

  // ---------------------------------------------------------------- over whole runs

  lemma {:induction false} RunSafe(c: Config, s: State, turns: seq<Turn>, lock: LockId)
    requires Safe(c, s, lock) && Run(c, s, turns)
    ensures Safe(c, Final(c, s, turns), lock)
    ensures s.cached.Some? ==> Published(Final(c, s, turns)) == Published(s)
    ensures |Final(c, s, turns).workers| == |s.workers|
    decreases |turns|
  {
    hide Step, Safe, Enabled, Published;
    if turns != [] {
      var w, m := turns[0].worker, turns[0].move;
      StepSafe(c, s, lock, w, m);
      StepKeepsPublished(c, s, lock, w, m);
      StepKeepsFile(c, s, w, m);
      RunSafe(c, Step(c, s, w, m), turns[1..], lock);
    }
  }

  lemma {:induction false} StepKeepsFile(c: Config, s: State, w: nat, m: Move)
    requires Enabled(c, s, w, m)
    ensures s.cached.Some? ==> Step(c, s, w, m).cached.Some?
  {
  }

  /** What the cache promises: workers that choose the same lock. */
  ghost predicate Promise(c: Config, s: State) {
    // the cached file is absent or one whole payload, and it was renamed into place at most once
    && (s.cached.None? || exists w :: 0 <= w < |s.workers| && Published(s) == Some(c.payload(w)))
    && s.renames <= 1
    // no worker misses the file after the lock
    && (forall w :: 0 <= w < |s.workers| ==> !s.workers[w].place.Failed? || !s.workers[w].place.fileMissing)
    // all workers that finish ship the bytes of the cached file
    && (forall w :: 0 <= w < |s.workers| && s.workers[w].place.Finished?
          ==> s.workers[w].data == Published(s) && s.cached.Some?)
    // at most one worker is inside the lock
    && (forall v, w :: 0 <= v < w < |s.workers| ==> !HoldsLock(s.workers[v].place) || !HoldsLock(s.workers[w].place))
  }

  lemma {:induction false} SafeKeepsPromise(c: Config, s: State, lock: LockId)
    requires Safe(c, s, lock)
    ensures Promise(c, s)
  {
    forall w | 0 <= w < |s.workers|
      ensures s.workers[w].place.Failed? ==> !s.workers[w].place.fileMissing
      ensures s.workers[w].place.Finished? ==> s.workers[w].data == Published(s) && s.cached.Some?
      ensures HoldsLock(s.workers[w].place) ==> lock in s.holders && s.holders[lock] == w
    {
      assert WorkerOk(c, s, lock, w);
    }
  }

  /** Every run of any number of workers with one lock, in any order and with any exceptions, keeps the promise. */
  lemma {:induction false} OneLockKeepsPromise(c: Config, lock: LockId, n: nat, turns: seq<Turn>)
    requires OneLock(c, lock, n) && Run(c, Initially(n), turns)
    ensures Promise(c, Final(c, Initially(n), turns))
  {
    hide Safe, Promise, Run, Final;
    InitiallySafe(c, lock, n);
    RunSafe(c, Initially(n), turns, lock);
    SafeKeepsPromise(c, Final(c, Initially(n), turns), lock);
  }

  /** While a worker is not done, some worker can move: the lock is always given back. */
  lemma {:induction false} NoDeadlock(c: Config, s: State, lock: LockId, w: nat) returns (v: nat, m: Move)
    requires Safe(c, s, lock) && w < |s.workers| && !Over(s.workers[w].place)
    ensures Enabled(c, s, v, m)
  {
    v := if lock in s.holders then s.holders[lock] else w;
    assert WorkerOk(c, s, lock, v) && WorkerOk(c, s, lock, w);
    assert Lock(c, v) == lock;
    var p := s.workers[v].place;
    m := if p.Writing? then Write(|c.payload(v)| - p.written) else Go;
    if p.Writing? && p.written == |c.payload(v)| {
      m := Go;
    }
  }

  // ---------------------------------------------------------------- with two locks

  lemma {:induction false} RunsJoin(c: Config, s: State, first: seq<Turn>, second: seq<Turn>)
    requires Run(c, s, first) && Run(c, Final(c, s, first), second)
    ensures Run(c, s, first + second) && Final(c, s, first + second) == Final(c, Final(c, s, first), second)
    decreases |first|
  {
    hide Step, Enabled;
    if first == [] {
      assert first + second == second;
    } else {
      assert (first + second)[1..] == first[1..] + second;
      RunsJoin(c, Step(c, s, first[0].worker, first[0].move), first[1..], second);
    }
  }

  /** One more turn at the end of a run. */
  lemma {:induction false} RunsOn(c: Config, s: State, turns: seq<Turn>, w: nat, m: Move) returns (more: seq<Turn>)
    requires Run(c, s, turns) && Enabled(c, Final(c, s, turns), w, m)
    ensures Run(c, s, more) && Final(c, s, more) == Step(c, Final(c, s, turns), w, m)
  {
    hide Step, Enabled;
    var last := [Turn(w, m)];
    var t := Final(c, s, turns);
    assert Run(c, t, last) && Final(c, t, last) == Step(c, t, w, m) by {
      assert last[1..] == [];
    }
    RunsJoin(c, s, turns, last);
    more := turns + last;
  }

  /** Worker `w` is inside its lock and has found no cached file; there is no -part file. */
  predicate AboutToBuild(s: State, w: nat) {
    w < |s.workers| && s.workers[w].place.Building? && s.part.None?
  }

  /** A worker that is about to build gets its file renamed into place, whatever is there already. */
  lemma {:induction false} BuildsAndRenames(c: Config, s: State, turns: seq<Turn>, w: nat) returns (more: seq<Turn>)
    requires Run(c, s, turns) && AboutToBuild(Final(c, s, turns), w)
    ensures Run(c, s, more)
    ensures var t, u := Final(c, s, turns), Final(c, s, more);
            && u.renames == t.renames + 1 && u.part.None? && |u.workers| == |t.workers|
            && u.workers[w] == Worker(Leaving, Some(c.payload(w)))
            && forall v :: 0 <= v < |t.workers| && v != w ==> u.workers[v] == t.workers[v]
  {
    hide Run, Final;
    more := RunsOn(c, s, turns, w, Go);
    more := RunsOn(c, s, more, w, Go);
    more := RunsOn(c, s, more, w, Write(|c.payload(w)|));
    more := RunsOn(c, s, more, w, Go);
    more := RunsOn(c, s, more, w, Go);
  }

  /** Two workers with different locks can both be about to build. */
  lemma {:induction false} BothAboutToBuild(c: Config, n: nat, v: nat, w: nat) returns (turns: seq<Turn>)
    requires v < n && w < n && Lock(c, v) != Lock(c, w)
    ensures Run(c, Initially(n), turns)
    ensures var t := Final(c, Initially(n), turns);
            AboutToBuild(t, v) && AboutToBuild(t, w) && t.renames == 0 && |t.workers| == n
  {
    hide Run, Final;
    var s := Initially(n);
    assert Run(c, s, []) && Final(c, s, []) == s by {
      StayPut(c, s);
    }
    turns := RunsOn(c, s, [], v, Go);
    turns := RunsOn(c, s, turns, v, Go);
    turns := RunsOn(c, s, turns, v, Go);
    turns := RunsOn(c, s, turns, w, Go);
    turns := RunsOn(c, s, turns, w, Go);
    turns := RunsOn(c, s, turns, w, Go);
  }

  lemma {:induction false} StayPut(c: Config, s: State)
    ensures Run(c, s, []) && Final(c, s, []) == s
  {
  }

  lemma {:induction false} TwoLocksRenameTwice(c: Config, n: nat, v: nat, w: nat) returns (turns: seq<Turn>)
    requires v < n && w < n && Lock(c, v) != Lock(c, w)
    ensures Run(c, Initially(n), turns) && Final(c, Initially(n), turns).renames == 2
  {
    hide Run, Final;
    turns := BothAboutToBuild(c, n, v, w);
    turns := BuildsAndRenames(c, Initially(n), turns, v);
    turns := BuildsAndRenames(c, Initially(n), turns, w);
  }

  /** A worker that is about to build gets to its rename, but not past it. */
  lemma {:induction false} BuildsUpToRename(c: Config, s: State, turns: seq<Turn>, w: nat) returns (more: seq<Turn>)
    requires Run(c, s, turns) && w < |Final(c, s, turns).workers| && Final(c, s, turns).workers[w].place.Building?
    ensures Run(c, s, more)
    ensures var t, u := Final(c, s, turns), Final(c, s, more);
            && u.renames == t.renames && |u.workers| == |t.workers| && u.part.Some?
            && u.workers[w] == Worker(Renaming, Some(c.payload(w)))
            && forall v :: 0 <= v < |t.workers| && v != w ==> u.workers[v] == t.workers[v]
  {
    hide Run, Final;
    more := RunsOn(c, s, turns, w, Go);
    more := RunsOn(c, s, more, w, Go);
    more := RunsOn(c, s, more, w, Write(|c.payload(w)|));
    more := RunsOn(c, s, more, w, Go);
  }

  /** With different locks a worker can find its -part file renamed away by another one, and fails. */
  lemma {:induction false} TwoLocksFailARename(c: Config, n: nat, v: nat, w: nat) returns (turns: seq<Turn>)
    requires v < n && w < n && Lock(c, v) != Lock(c, w)
    ensures Run(c, Initially(n), turns)
    ensures var t := Final(c, Initially(n), turns);
            |t.workers| == n && t.workers[w].place == Failed(false) && t.renames == 1
  {
    hide Run, Final;
    turns := BothAboutToBuild(c, n, v, w);
    turns := BuildsUpToRename(c, Initially(n), turns, w);
    turns := BuildsUpToRename(c, Initially(n), turns, v);
    turns := RunsOn(c, Initially(n), turns, v, Go);
    turns := RunsOn(c, Initially(n), turns, w, Go);
  }

  ghost predicate AlwaysKept(c: Config, n: nat) {
    forall turns :: Run(c, Initially(n), turns) ==> Promise(c, Final(c, Initially(n), turns))
  }

  /** The cache keeps its promise in every run exactly when all its workers take one lock. */
  lemma {:induction false} KeptExactlyWithOneLock(c: Config, n: nat)
    ensures AlwaysKept(c, n) <==> forall v, w :: 0 <= v < n && 0 <= w < n ==> Lock(c, v) == Lock(c, w)
  {
    hide Lock;
    if v, w :| 0 <= v < n && 0 <= w < n && Lock(c, v) != Lock(c, w) {
      var turns := TwoLocksRenameTwice(c, n, v, w);
    } else {
      forall turns | Run(c, Initially(n), turns)
        ensures Promise(c, Final(c, Initially(n), turns))
      {
        OneLockKeepsPromise(c, Lock(c, 0), n, turns);
      }
    }
  }

  // ---------------------------------------------------------------- single steps

  /** A file after a write: the bytes written, before and after them what was there, and zeros in a gap. */
  lemma {:induction false} OverlayExactly(c: Bytes, at: nat, b: Bytes, k: nat)
    requires k < |Overlay(c, at, b)|
    ensures |Overlay(c, at, b)| == if |c| < at + |b| then at + |b| else |c|
    ensures Overlay(c, at, b)[k] == if at <= k < at + |b| then b[k - at] else if k < |c| then c[k] else 0
  {
  }

  /** A worker that is done makes no move any more. */
  lemma {:induction false} DoneIsDone(c: Config, s: State, w: nat, m: Move)
    requires w < |s.workers| && (s.workers[w].place.Finished? || s.workers[w].place.Failed?)
    ensures !Enabled(c, s, w, m)
  {
  }

  /** The read after the lock ships what is cached, or reports that another worker failed to make it. */
  lemma {:induction false} ReadsAfter(c: Config, s: State, w: nat)
    requires Enabled(c, s, w, Go) && s.workers[w].place.ReadingAfter?
    requires s.cached.Some? ==> s.cached.value in s.content
    ensures var me := Step(c, s, w, Go).workers[w];
            if s.cached.Some? then me == Worker(Finished, Some(s.content[s.cached.value])) else me.place == Failed(true)
  {
  }

  // ---------------------------------------------------------------- no lock for what is cached

  /** When the file is there, a worker that comes to look ships it in two steps, whoever holds whatever lock. */
  lemma {:induction false} CachedNeedsNoLock(c: Config, s: State, w: nat)
    requires w < |s.workers| && s.workers[w].place.Looking?
    requires s.cached.Some? && s.cached.value in s.content
    ensures Enabled(c, s, w, Go)
    ensures var one := Step(c, s, w, Go);
            && Enabled(c, one, w, Go)
            && Step(c, one, w, Go)
               == s.(workers := s.workers[w := Worker(Finished, Some(s.content[s.cached.value]))])
  {
  }

  /** The state after a worker got its lock and opened its -part file, whether there was one or not. */
  function Opened(c: Config, s: State, w: nat): State
    requires w < |s.workers|
  {
    var i := if s.part.Some? then s.part.value else s.nextInode;
    s.(workers := s.workers[w := Worker(Writing(i, 0), Some(c.payload(w)))], holders := s.holders[Lock(c, w) := w],
       part := Some(i), content := s.content[i := []],
       nextInode := if s.part.Some? then s.nextInode else s.nextInode + 1)
  }

  lemma {:induction false} GetsToWrite(c: Config, s: State, turns: seq<Turn>, w: nat) returns (more: seq<Turn>)
    requires Run(c, s, turns)
    requires var t := Final(c, s, turns);
             w < |t.workers| && t.workers[w].place.Looking? && t.cached.None? && Lock(c, w) !in t.holders
    ensures Run(c, s, more) && Final(c, s, more) == Opened(c, Final(c, s, turns), w)
  {
    hide Run, Final;
    var t := Final(c, s, turns);
    more := RunsOn(c, s, turns, w, Go);
    more := RunsOn(c, s, more, w, Go);
    more := RunsOn(c, s, more, w, Go);
    assert Final(c, s, more) ==
           t.(workers := t.workers[w := t.workers[w].(place := Building)], holders := t.holders[Lock(c, w) := w]);
    more := RunsOn(c, s, more, w, Go);
    more := RunsOn(c, s, more, w, Go);
  }

  /** Two workers of one cached file, the first of which may hold its lock. */
  function Pair(one: Worker, two: Worker, holders: map<LockId, nat>, part: Option<Inode>, cached: Option<Inode>,
                file: Bytes, renames: nat): State {
    State([one, two], holders, part, cached, map[0 := file], 1, renames)
  }

  lemma {:induction false} RaisesHalfway(c: Config, other: Worker)
    requires |c.payload(0)| > 0
    ensures var p, lock := c.payload(0), Lock(c, 0);
            var s := Pair(Worker(Writing(0, 0), Some(p)), other, map[lock := 0], Some(0), None, [], 0);
            var t := Pair(Worker(Writing(0, 1), Some(p)), other, map[lock := 0], Some(0), None, p[..1], 0);
            && Enabled(c, s, 0, Write(1)) && Step(c, s, 0, Write(1)) == t
            && Enabled(c, t, 0, Raise)
            && Step(c, t, 0, Raise) == Pair(Worker(Failed(false), Some(p)), other, map[], Some(0), None, p[..1], 0)
  {
    var p := c.payload(0);
    assert p[0..1] == p[..1] && Overlay([], 0, p[0..1]) == p[..1];
  }

  /** A worker that gets its lock and fails in the middle of writing: half a file is left, and the lock is free. */
  lemma {:induction false} FailsHalfway(c: Config) returns (turns: seq<Turn>)
    requires |c.payload(0)| > 0
    ensures Run(c, Initially(2), turns)
    ensures Final(c, Initially(2), turns)
         == Pair(Worker(Failed(false), Some(c.payload(0))), Worker(Looking, None), map[], Some(0), None,
                 c.payload(0)[..1], 0)
  {
    var s, p := Initially(2), c.payload(0);
    assert Run(c, s, []) && Final(c, s, []) == s by {
      StayPut(c, s);
    }
    hide Run, Final, Step, Enabled;
    turns := GetsToWrite(c, s, [], 0);
    RaisesHalfway(c, Worker(Looking, None));
    assert Final(c, s, turns) ==
           Pair(Worker(Writing(0, 0), Some(p)), Worker(Looking, None), map[Lock(c, 0) := 0], Some(0), None, [], 0);
    turns := RunsOn(c, s, turns, 0, Write(1));
    turns := RunsOn(c, s, turns, 0, Raise);
  }

  lemma {:induction false} WritesAndRenames(c: Config, other: Worker)
    ensures var p, lock := c.payload(1), Lock(c, 1);
            var s := Pair(other, Worker(Writing(0, 0), Some(p)), map[lock := 1], Some(0), None, [], 0);
            var t := Pair(other, Worker(Writing(0, |p|), Some(p)), map[lock := 1], Some(0), None, p, 0);
            var u := Pair(other, Worker(Renaming, Some(p)), map[lock := 1], Some(0), None, p, 0);
            && Enabled(c, s, 1, Write(|p|)) && Step(c, s, 1, Write(|p|)) == t
            && Enabled(c, t, 1, Go) && Step(c, t, 1, Go) == u
            && Enabled(c, u, 1, Go)
            && Step(c, u, 1, Go) == Pair(other, Worker(Leaving, Some(p)), map[lock := 1], None, Some(0), p, 1)
  {
    var p := c.payload(1);
    assert p[0..|p|] == p && Overlay([], 0, p) == p;
  }

  lemma {:induction false} LeavesTheLock(c: Config, other: Worker)
    ensures var p, lock := c.payload(1), Lock(c, 1);
            var s := Pair(other, Worker(Leaving, Some(p)), map[lock := 1], None, Some(0), p, 1);
            && Enabled(c, s, 1, Go)
            && Step(c, s, 1, Go) == Pair(other, Worker(Finished, Some(p)), map[], None, Some(0), p, 1)
  {
  }

  /** The next worker gets the lock, writes over what was left, and publishes its own payload. */
  lemma {:induction false} PublishesAfterFailure(c: Config) returns (turns: seq<Turn>)
    requires Lock(c, 0) == Lock(c, 1) && |c.payload(0)| > 0
    ensures Run(c, Initially(2), turns)
    ensures Final(c, Initially(2), turns)
         == Pair(Worker(Failed(false), Some(c.payload(0))), Worker(Finished, Some(c.payload(1))), map[], None, Some(0),
                 c.payload(1), 1)
    ensures Published(Final(c, Initially(2), turns)) == Some(c.payload(1))
  {
    var s, p, failed := Initially(2), c.payload(1), Worker(Failed(false), Some(c.payload(0)));
    hide Run, Final, Step, Enabled;
    turns := FailsHalfway(c);
    turns := GetsToWrite(c, s, turns, 1);
    WritesAndRenames(c, failed);
    LeavesTheLock(c, failed);
    assert Final(c, s, turns) ==
           Pair(failed, Worker(Writing(0, 0), Some(p)), map[Lock(c, 1) := 1], Some(0), None, [], 0);
    turns := RunsOn(c, s, turns, 1, Write(|p|));
    turns := RunsOn(c, s, turns, 1, Go);
    turns := RunsOn(c, s, turns, 1, Go);
    turns := RunsOn(c, s, turns, 1, Go);
  }

  // ---------------------------------------------------------------- in the terms of the strategy

  /**
   A worker that calls the module: the actions the strategy has queued since the worker before,
   its own included, and the name it calls the module by.  That is the name of its action, unless
   an action plugin calls another module.
  */
  datatype Caller = Caller(queued: set<string>, name: string)

  /** The names that have a lock when the last of the callers is forked: one is made for every action queued. */
  function Locked(initially: set<string>, callers: seq<Caller>): set<string> {
    initially + set c, a | c in callers && a in c.queued :: a
  }

  function Forked(initially: set<string>, callers: seq<Caller>, payload: nat -> Bytes): Config {
    Config((w: nat) => if w < |callers| then callers[w].name else "",
           (w: nat) => Locked(initially, if w < |callers| then callers[..w + 1] else callers), payload)
  }

  /** All callers use one name, which had a lock when the first of them was forked. */
  predicate OneNameLockedFirst(initially: set<string>, callers: seq<Caller>)
    requires callers != []
  {
    && callers[0].name in Locked(initially, callers[..1])
    && forall w :: 0 <= w < |callers| ==> callers[w].name == callers[0].name
  }

  /** No caller uses a name that had a lock when it was forked. */
  predicate NoNameLocked(initially: set<string>, callers: seq<Caller>) {
    forall w :: 0 <= w < |callers| ==> callers[w].name !in Locked(initially, callers[..w + 1])
  }

  lemma {:induction false} ForkedKnows(initially: set<string>, callers: seq<Caller>, payload: nat -> Bytes, w: nat)
    requires w < |callers|
    ensures var c := Forked(initially, callers, payload);
            c.name(w) == callers[w].name && (Knows(c, w) <==> callers[w].name in Locked(initially, callers[..w + 1]))
    ensures Locked(initially, callers[..1]) <= Locked(initially, callers[..w + 1]) <= Locked(initially, callers)
  {
    assert forall c :: c in callers[..1] ==> c in callers[..w + 1];
    assert forall c :: c in callers[..w + 1] ==> c in callers;
  }

  /**
   In the terms of the strategy, the promise is kept exactly when all callers use one name that had
   a lock from the first of them on, or when none uses a name that had a lock.  A lock that comes
   too late for a caller, and a second name for the module, both break it.
  */
  lemma {:induction false} KeptExactlyForCallers(initially: set<string>, callers: seq<Caller>, payload: nat -> Bytes)
    requires callers != []
    ensures AlwaysKept(Forked(initially, callers, payload), |callers|) <==>
            OneNameLockedFirst(initially, callers) || NoNameLocked(initially, callers)
  {
    hide AlwaysKept, Locked, Forked, Knows;
    var c := Forked(initially, callers, payload);
    KeptExactlyWithOneLock(c, |callers|);
    forall w | 0 <= w < |callers|
      ensures c.name(w) == callers[w].name && (Knows(c, w) <==> callers[w].name in Locked(initially, callers[..w + 1]))
      ensures Locked(initially, callers[..1]) <= Locked(initially, callers[..w + 1])
    {
      ForkedKnows(initially, callers, payload, w);
    }
    assert Knows(c, 0) <==> callers[0].name in Locked(initially, callers[..1]);
    if forall w :: 0 <= w < |callers| ==> Lock(c, w) == Lock(c, 0) {
      forall w | 0 <= w < |callers|
        ensures if Knows(c, 0) then c.name(w) == c.name(0) else !Knows(c, w)
      {
        assert Lock(c, w) == Lock(c, 0);
      }
    }
  }

  /** If all use one name, the promise is kept exactly when that name is locked for the first caller or for none. */
  lemma {:induction false} KeptExactlyForOneName(initially: set<string>, callers: seq<Caller>, payload: nat -> Bytes,
                                                 name: string)
    requires callers != [] && forall c :: c in callers ==> c.name == name
    ensures AlwaysKept(Forked(initially, callers, payload), |callers|) <==>
            name in Locked(initially, callers[..1]) || name !in Locked(initially, callers)
  {
    hide AlwaysKept, Forked;
    KeptExactlyForCallers(initially, callers, payload);
    assert callers[..|callers|] == callers;
    forall w | 0 <= w < |callers|
      ensures callers[w].name == name && Locked(initially, callers[..w + 1]) <= Locked(initially, callers)
    {
      ForkedKnows(initially, callers, payload, w);
    }
  }

  /**
   A stat task and a copy task, whose action plugin calls stat by its legacy name: whichever names
   have locks from the beginning, the two workers can ship different payloads.
  */
  lemma {:induction false} StatByTwoNames(initially: set<string>, payload: nat -> Bytes) returns (turns: seq<Turn>)
    requires payload(0) != payload(1)
    ensures var callers := [Caller({"stat"}, "stat"), Caller({"copy"}, "distronode.legacy.stat")];
            var c := Forked(initially, callers, payload);
            && !AlwaysKept(c, 2)
            && Run(c, Initially(2), turns) && !SameBytes(Final(c, Initially(2), turns))
  {
    hide AlwaysKept, Run, Final, SameBytes, Forked;
    var stat, copied := Caller({"stat"}, "stat"), Caller({"copy"}, "distronode.legacy.stat");
    turns := TwoNamesShipDifferently(initially, stat, copied, payload);
  }

  /** Two tasks that call one module by its short and by its full name take two locks of their own. */
  lemma {:induction false} PingByTwoNames(initially: set<string>, payload: nat -> Bytes) returns (turns: seq<Turn>)
    requires payload(0) != payload(1)
    ensures var callers := [Caller({"ping"}, "ping"), Caller({"distronode.builtin.ping"}, "distronode.builtin.ping")];
            var c := Forked(initially, callers, payload);
            && !AlwaysKept(c, 2)
            && Run(c, Initially(2), turns) && !SameBytes(Final(c, Initially(2), turns))
  {
    hide AlwaysKept, Run, Final, SameBytes, Forked;
    var short, full := Caller({"ping"}, "ping"), Caller({"distronode.builtin.ping"}, "distronode.builtin.ping");
    turns := TwoNamesShipDifferently(initially, short, full, payload);
  }

  /** Two callers whose names differ, the first of them locked. */
  lemma {:induction false} TwoNamesShipDifferently(initially: set<string>, one: Caller, two: Caller,
                                                   payload: nat -> Bytes) returns (turns: seq<Turn>)
    requires one.name in Locked(initially, [one]) && one.name != two.name && payload(0) != payload(1)
    ensures var c := Forked(initially, [one, two], payload);
            && !AlwaysKept(c, 2)
            && Run(c, Initially(2), turns) && !SameBytes(Final(c, Initially(2), turns))
  {
    hide AlwaysKept, Run, Final, SameBytes, Locked, Forked;
    var callers := [one, two];
    var c := Forked(initially, callers, payload);
    assert callers[..1] == [one];
    ForkedKnows(initially, callers, payload, 0);
    ForkedKnows(initially, callers, payload, 1);
    assert c.payload == payload by { ForkedPayload(initially, callers, payload); }
    KeptExactlyForCallers(initially, callers, payload);
    assert callers[1].name != callers[0].name;
    turns := TwoLocksShipDifferently(c, 2, 0, 1);
  }

  lemma {:induction false} ForkedPayload(initially: set<string>, callers: seq<Caller>, payload: nat -> Bytes)
    ensures Forked(initially, callers, payload).payload == payload
  {
  }

  ghost predicate SameBytes(s: State) {
    forall v, w :: 0 <= v < |s.workers| && 0 <= w < |s.workers|
                   && s.workers[v].place.Finished? && s.workers[w].place.Finished?
      ==> s.workers[v].data == s.workers[w].data
  }

  /** With different locks two workers can ship different payloads for the same module. */
  lemma {:induction false} TwoLocksShipDifferently(c: Config, n: nat, v: nat, w: nat) returns (turns: seq<Turn>)
    requires v < n && w < n && Lock(c, v) != Lock(c, w) && c.payload(v) != c.payload(w)
    ensures Run(c, Initially(n), turns) && !SameBytes(Final(c, Initially(n), turns))
  {
    hide Run, Final;
    turns := BothAboutToBuild(c, n, v, w);
    turns := BuildsAndRenames(c, Initially(n), turns, v);
    turns := BuildsAndRenames(c, Initially(n), turns, w);
    turns := RunsOn(c, Initially(n), turns, v, Go);
    turns := RunsOn(c, Initially(n), turns, w, Go);
    var t := Final(c, Initially(n), turns);
    assert t.workers[v] == Worker(Finished, Some(c.payload(v))) && t.workers[w] == Worker(Finished, Some(c.payload(w)));
  }

  /** With one lock, all workers that finish ship the same bytes, however much their builds differ. */
  lemma {:induction false} OneLockShipsTheSame(c: Config, lock: LockId, n: nat, turns: seq<Turn>)
    requires OneLock(c, lock, n) && Run(c, Initially(n), turns)
    ensures SameBytes(Final(c, Initially(n), turns))
  {
    hide Run, Final;
    OneLockKeepsPromise(c, lock, n, turns);
  }
}
