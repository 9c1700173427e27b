/** The thread that writes the learners' state to files. The control loop leaves at most one job per path in
    a mailbox; the thread empties it, writes each content byte by byte to a temporary file and renames that
    into place. Every statement that touches shared state is one step, the two threads interleave freely,
    a write may fail, and the whole process may die between any two steps and start again. */
module LearnerStore {
  import opened Options

  type Name = string
  type Bytes = seq<bv8>
  type Disk = map<Name, Bytes>

  datatype Job = Write(content: Bytes) | Remove

  /** The thread: waiting for jobs, holding a batch, part of the way through one content, or gone. */
  datatype Worker =
    | Waiting
    | Busy(jobs: map<Name, Job>, stopSeen: bool)
    | Writing(jobs: map<Name, Job>, stopSeen: bool, path: Name, written: nat)
    | Finished

  datatype State = State(disk: Disk, pending: map<Name, Job>, stop: bool, worker: Worker)

  datatype Action =
    | Submit(path: Name, job: Job)
    | Stop
    | TakeJobs
    | Begin(path: Name)
    | Append(count: nat)
    | Complete
    | Fail
    | NextRound
    | Die

  /** How a content gets to its path. The code renames a temporary file; writing the path itself is what it
      guards against. */
  datatype How = ByRename | InPlace

  function Temp(path: Name): Name { path + ".tmp" }

  predicate IsTemp(name: Name) { |name| >= 4 && name[|name| - 4..] == ".tmp" }

  function Place(how: How, path: Name): Name { if how.ByRename? then Temp(path) else path }

  /** A process that starts on whatever is on the disk. */
  function Started(disk: Disk): State { State(disk, map[], false, Waiting) }

  predicate Holds(w: Worker) { w.Writing? && w.path in w.jobs && w.jobs[w.path].Write? }

  predicate Enabled(how: How, s: State, a: Action) {
    var w := s.worker;
    match a
    case Submit(_, _) => !s.stop
    case Stop => !s.stop
    case TakeJobs => w.Waiting? && (s.stop || s.pending != map[])
    case Begin(path) => w.Busy? && path in w.jobs
    case Append(count) =>
      Holds(w) && Place(how, w.path) in s.disk && 0 < count && w.written + count <= |w.jobs[w.path].content|
    case Complete => Holds(w) && Place(how, w.path) in s.disk && w.written == |w.jobs[w.path].content|
    case Fail => w.Writing?
    case NextRound => w.Busy? && w.jobs == map[]
    case Die => true
  }

  function Without<K, V>(m: map<K, V>, k: K): map<K, V> { m - {k} }

  /** The thread is through with one job. */
  function Onward(w: Worker, path: Name): Worker
    requires w.Busy? || w.Writing?
  {
    Busy(Without(w.jobs, path), w.stopSeen)
  }

  /** One step; a step that is not enabled changes nothing. Submitting comes from the loop that later
      destroys the store, so nothing is submitted once it has stopped. */
  function Step(how: How, s: State, a: Action): State {
    var w := s.worker;
    if !Enabled(how, s, a) then s
    else
      match a
      case Submit(path, job) => s.(pending := s.pending[path := job])
      case Stop => s.(stop := true)
      case TakeJobs => s.(pending := map[], worker := Busy(s.pending, s.stop))
      case Begin(path) =>
        if w.jobs[path].Remove?
        then s.(disk := Without(s.disk, path), worker := Onward(w, path))
        else s.(disk := s.disk[Place(how, path) := []], worker := Writing(w.jobs, w.stopSeen, path, 0))
      case Append(count) =>
        var (file, piece) := (Place(how, w.path), w.jobs[w.path].content[w.written..w.written + count]);
        s.(disk := s.disk[file := s.disk[file] + piece], worker := w.(written := w.written + count))
      case Complete =>
        s.(disk := if how.ByRename? then Without(s.disk[w.path := s.disk[Temp(w.path)]], Temp(w.path)) else s.disk,
           worker := Onward(w, w.path))
      case Fail => s.(disk := Without(s.disk, Place(how, w.path)), worker := Onward(w, w.path))
      case NextRound => s.(worker := if w.stopSeen then Finished else Waiting)
      case Die => Started(s.disk)
  }

  function Run(how: How, s: State, actions: seq<Action>): State
    decreases |actions|
  {
    if actions == [] then s else Step(how, Run(how, s, actions[..|actions| - 1]), actions[|actions| - 1])
  }

  // ---- What the files should hold in the end

  function Look<K, V>(m: map<K, V>, k: K): Option<V> { if k in m then Some(m[k]) else None }

  /** What a path holds once a waiting job has been done. */
  function Done(job: Option<Job>, before: Option<Bytes>): Option<Bytes> {
    match job
    case None => before
    case Some(Remove) => None
    case Some(Write(content)) => Some(content)
  }

  function Batch(w: Worker): map<Name, Job> { if w.Busy? || w.Writing? then w.jobs else map[] }

  /** The path's content once everything handed over is done. */
  function Eventual(s: State, path: Name): Option<Bytes> {
    Done(Look(s.pending, path), Done(Look(Batch(s.worker), path), Look(s.disk, path)))
  }

  /** The last accepted submission for a path, over what was on the disk. */
  function Wanted(disk: Disk, actions: seq<Action>, path: Name): Option<Bytes>
    decreases |actions|
  {
    if actions == [] then Look(disk, path)
    else
      var (rest, a) := (actions[..|actions| - 1], actions[|actions| - 1]);
      if a.Submit? && a.path == path && Enabled(ByRename, Run(ByRename, Started(disk), rest), a)
      then Done(Some(a.job), None)
      else Wanted(disk, rest, path)
  }

  ghost predicate Inv(s: State) {
    var w := s.worker;
    && (w.Writing? ==>
          && Holds(w) && w.written <= |w.jobs[w.path].content|
          && Look(s.disk, Temp(w.path)) == Some(w.jobs[w.path].content[..w.written]))
    && (w.Finished? ==> s.stop && s.pending == map[])
    && ((w.Busy? || w.Writing?) && w.stopSeen ==> s.stop && s.pending == map[])
    && forall p | p in s.pending || p in Batch(w) :: !IsTemp(p)
  }

  /** No path that is submitted is the temporary name of another. */
  predicate Named(a: Action) { a.Submit? ==> !IsTemp(a.path) }

  predicate Smooth(a: Action) { !a.Fail? && !a.Die? }

  lemma TempIsTemp(path: Name)
    ensures IsTemp(Temp(path))
  {
    assert Temp(path)[|path|..] == ".tmp";
  }

  lemma AppendKeeps(s: State, count: nat)
    requires Inv(s)
    ensures Inv(Step(ByRename, s, Append(count)))
  {
    if Enabled(ByRename, s, Append(count)) {
      var (w, c) := (s.worker, s.worker.jobs[s.worker.path].content);
      assert c[..w.written] + c[w.written..w.written + count] == c[..w.written + count];
    }
  }

  lemma CompleteKeeps(s: State, path: Name)
    requires Inv(s) && !IsTemp(path)
    ensures Inv(Step(ByRename, s, Complete)) && Eventual(Step(ByRename, s, Complete), path) == Eventual(s, path)
  {
    if Enabled(ByRename, s, Complete) {
      TempIsTemp(s.worker.path);
      var c := s.worker.jobs[s.worker.path].content;
      assert c[..|c|] == c;
    }
  }

  lemma StepKeeps(s: State, a: Action, path: Name)
    requires Inv(s) && Named(a) && !IsTemp(path)
    ensures Inv(Step(ByRename, s, a))
    ensures Smooth(a) ==>
            Eventual(Step(ByRename, s, a), path) ==
            if a.Submit? && a.path == path && Enabled(ByRename, s, a) then Done(Some(a.job), None)
            else Eventual(s, path)
  {
    if a.Append? { AppendKeeps(s, a.count); }
    if a.Complete? { CompleteKeeps(s, path); }
    if a.Begin? { TempIsTemp(a.path); }
    if s.worker.Writing? { TempIsTemp(s.worker.path); }
    hide IsTemp, Temp;
  }

  /** Since the process started, as long as no write fails: whatever is on the disk, leftovers of an earlier
      life included, mailbox, batch and files together determine the last request for every path. */
  lemma {:induction false} NothingIsLost(disk: Disk, actions: seq<Action>, path: Name)
    requires !IsTemp(path) && forall a <- actions :: Named(a)
    ensures Inv(Run(ByRename, Started(disk), actions))
    ensures (forall a <- actions :: Smooth(a)) ==>
            Eventual(Run(ByRename, Started(disk), actions), path) == Wanted(disk, actions, path)
    decreases |actions|
  {
    if actions != [] {
      var (rest, a) := (actions[..|actions| - 1], actions[|actions| - 1]);
      NothingIsLost(disk, rest, path);
      hide Step, Inv, Eventual, IsTemp;
      StepKeeps(Run(ByRename, Started(disk), rest), a, path);
    }
  }

  /** The thread has nothing left to do: it is gone, or waits with an empty mailbox. */
  predicate AtRest(s: State) { s.worker.Finished? || (s.worker.Waiting? && s.pending == map[] && !s.stop) }

  /** In every interleaving: once the thread is gone, and whenever it rests, every path holds exactly what
      was last asked for it. */
  lemma StoppedStoreIsComplete(disk: Disk, actions: seq<Action>, path: Name)
    requires !IsTemp(path) && forall a <- actions :: Named(a) && Smooth(a)
    requires AtRest(Run(ByRename, Started(disk), actions))
    ensures Look(Run(ByRename, Started(disk), actions).disk, path) == Wanted(disk, actions, path)
  {
    NothingIsLost(disk, actions, path);
  }

  // ---- No file is ever torn

  /** A content somebody asked for, or the one there at the start: a path never holds part of one. */
  ghost predicate Whole(disk: Disk, actions: seq<Action>, path: Name, content: Bytes) {
    || (path in disk && disk[path] == content)
    || Submit(path, Write(content)) in actions
  }

  ghost predicate AllWhole(disk: Disk, actions: seq<Action>, s: State) {
    && (forall p | p in s.disk && !IsTemp(p) :: Whole(disk, actions, p, s.disk[p]))
    && (forall p | p in s.pending && s.pending[p].Write? :: Whole(disk, actions, p, s.pending[p].content))
    && (forall p | p in Batch(s.worker) && Batch(s.worker)[p].Write? ::
          Whole(disk, actions, p, Batch(s.worker)[p].content))
  }

  /** A step changes a file that is no temporary one only by removing it or by renaming a finished content
      over it. */
  lemma FileAfter(s: State, a: Action, p: Name)
    requires Inv(s) && Named(a) && !IsTemp(p) && p in Step(ByRename, s, a).disk
    ensures var now := Step(ByRename, s, a).disk[p];
            || (p in s.disk && now == s.disk[p])
            || (p in Batch(s.worker) && Batch(s.worker)[p] == Write(now))
  {
    if a.Begin? { TempIsTemp(a.path); }
    if s.worker.Writing? {
      TempIsTemp(s.worker.path);
      if Holds(s.worker) {
        var c := s.worker.jobs[s.worker.path].content;
        assert c[..|c|] == c;
      }
    }
    hide IsTemp, Temp;
  }

  lemma JobAfter(s: State, a: Action, p: Name)
    ensures var t := Step(ByRename, s, a);
            && (p in t.pending ==> a == Submit(p, t.pending[p]) || (p in s.pending && t.pending[p] == s.pending[p]))
            && (p in Batch(t.worker) ==>
                  || (p in s.pending && Batch(t.worker)[p] == s.pending[p])
                  || (p in Batch(s.worker) && Batch(t.worker)[p] == Batch(s.worker)[p]))
  {}

  lemma StepStaysWhole(disk: Disk, rest: seq<Action>, a: Action, s: State)
    requires AllWhole(disk, rest, s) && Inv(s) && Named(a)
    ensures AllWhole(disk, rest + [a], Step(ByRename, s, a))
  {
    hide Step, IsTemp, Temp, Inv, Batch;
    var t := Step(ByRename, s, a);
    forall p | p in t.disk && !IsTemp(p) ensures Whole(disk, rest + [a], p, t.disk[p]) {
      FileAfter(s, a, p);
    }
    forall p | p in t.pending && t.pending[p].Write? ensures Whole(disk, rest + [a], p, t.pending[p].content) {
      JobAfter(s, a, p);
    }
    forall p | p in Batch(t.worker) && Batch(t.worker)[p].Write?
      ensures Whole(disk, rest + [a], p, Batch(t.worker)[p].content)
    {
      JobAfter(s, a, p);
    }
  }

  /** At every moment of every run, failing writes and deaths included, each file holds a content that was
      handed over whole, or what it held at the start. */
  lemma {:induction false} FilesAreNeverTorn(disk: Disk, actions: seq<Action>)
    requires forall a <- actions :: Named(a)
    ensures AllWhole(disk, actions, Run(ByRename, Started(disk), actions))
    decreases |actions|
  {
    if actions != [] {
      var (rest, a) := (actions[..|actions| - 1], actions[|actions| - 1]);
      assert actions == rest + [a];
      FilesAreNeverTorn(disk, rest);
      NothingIsLost(disk, rest, "");
      hide Step, Inv, AllWhole;
      StepStaysWhole(disk, rest, a, Run(ByRename, Started(disk), rest));
    }
  }

  /** As long as the process lives it leaves no temporary file behind, failed writes included: one is there
      only while the thread writes it, or if an earlier life left it. */
  lemma {:induction false} NoLitter(disk: Disk, actions: seq<Action>, name: Name)
    requires IsTemp(name) && forall a <- actions :: Named(a) && !a.Die?
    ensures var s := Run(ByRename, Started(disk), actions);
            name in s.disk ==> name in disk || (s.worker.Writing? && name == Temp(s.worker.path))
    decreases |actions|
  {
    if actions != [] {
      var (rest, a) := (actions[..|actions| - 1], actions[|actions| - 1]);
      NoLitter(disk, rest, name);
      NothingIsLost(disk, rest, "");
      hide Step, Inv, IsTemp, Temp;
      var s := Run(ByRename, Started(disk), rest);
      if name in Step(ByRename, s, a).disk { TempAfter(s, a, name); }
    }
  }

  lemma TempAfter(s: State, a: Action, name: Name)
    requires Inv(s) && !a.Die? && IsTemp(name) && name in Step(ByRename, s, a).disk
    ensures var t := Step(ByRename, s, a);
            || (t.worker.Writing? && name == Temp(t.worker.path))
            || (name in s.disk && !(s.worker.Writing? && name == Temp(s.worker.path)))
  {
    hide IsTemp, Temp;
  }

  /** The rename is what this rests on: written in place, any content of two bytes or more is left torn by a
      death after its first n bytes. */
  lemma InPlaceTears(path: Name, before: Bytes, content: Bytes, n: nat)
    requires 0 < n < |content| && before != content[..n]
    ensures var disk := map[path := before];
            var actions := [Submit(path, Write(content)), TakeJobs, Begin(path), Append(n), Die];
            var s := Run(InPlace, Started(disk), actions);
            path in s.disk && s.disk[path] == content[..n] && !Whole(disk, actions, path, s.disk[path])
  {
    hide Run, Step;
    TornInPlace(path, before, content, n);
    RunFive(InPlace, Started(map[path := before]), Submit(path, Write(content)), TakeJobs, Begin(path), Append(n), Die);
  }

  lemma TornInPlace(path: Name, before: Bytes, content: Bytes, n: nat)
    requires 0 < n < |content|
    ensures var s1 := Step(InPlace, Started(map[path := before]), Submit(path, Write(content)));
            var s2 := Step(InPlace, s1, TakeJobs);
            var s5 := Step(InPlace, Step(InPlace, Step(InPlace, s2, Begin(path)), Append(n)), Die);
            s5.disk == map[path := content[..n]]
  {
    var jobs := map[path := Write(content)];
    var s1 := Step(InPlace, Started(map[path := before]), Submit(path, Write(content)));
    var s2 := Step(InPlace, s1, TakeJobs);
    assert s1.pending == jobs && path in s1.pending;
    assert s2 == State(map[path := before], map[], false, Busy(jobs, false));
    assert Step(InPlace, s2, Begin(path)) == State(map[path := []], map[], false, Writing(jobs, false, path, 0));
    assert [] + content[0..n] == content[..n];
  }

  lemma RunFive(how: How, s: State, a: Action, b: Action, c: Action, d: Action, e: Action)
    ensures Run(how, s, [a, b, c, d, e])
         == Step(how, Step(how, Step(how, Step(how, Step(how, s, a), b), c), d), e)
  {
    hide Step;
    assert [a, b, c, d, e][..4] == [a, b, c, d] && [a, b, c, d][..3] == [a, b, c] && [a, b, c][..2] == [a, b];
    assert [a, b][..1] == [a] && [a][..0] == [];
    assert Run(how, s, [a]) == Step(how, Run(how, s, []), a);
    assert Run(how, s, [a, b]) == Step(how, Run(how, s, [a]), b);
    assert Run(how, s, [a, b, c]) == Step(how, Run(how, s, [a, b]), c);
    assert Run(how, s, [a, b, c, d]) == Step(how, Run(how, s, [a, b, c]), d);
  }

  // ---- Progress

  /** How far the thread is from its rest: the rounds it may still begin, the jobs in hand, whether the next
      is still to be begun, and the bytes still to be written. */
  datatype Distance = Distance(rounds: nat, jobs: nat, toBegin: nat, bytes: nat)

  function Remaining(s: State): Distance {
    var more := s.stop || s.pending != map[];
    match s.worker
    case Waiting => Distance(if more then 2 else 0, 0, 0, 0)
    case Busy(jobs, stopSeen) => Distance(if stopSeen || !more then 1 else 3, |jobs|, 1, 0)
    case Writing(jobs, stopSeen, path, written) =>
      Distance(if stopSeen || !more then 1 else 3, |jobs|, 0,
               if Holds(s.worker) && written <= |jobs[path].content| then |jobs[path].content| - written else 0)
    case Finished => Distance(0, 0, 0, 0)
  }

  predicate Nearer(d: Distance, e: Distance) {
    || d.rounds < e.rounds
    || (d.rounds == e.rounds && d.jobs < e.jobs)
    || (d.rounds == e.rounds && d.jobs == e.jobs && d.toBegin < e.toBegin)
    || (d.rounds == e.rounds && d.jobs == e.jobs && d.toBegin == e.toBegin && d.bytes < e.bytes)
  }

  predicate OfThread(a: Action) { !a.Submit? && !a.Stop? && !a.Die? }

  /** Every step of the thread brings its rest nearer, so left alone it can take only finitely many. */
  lemma EveryStepIsNearer(s: State, a: Action)
    requires Inv(s) && OfThread(a) && Enabled(ByRename, s, a)
    ensures var t := Step(ByRename, s, a);
            Inv(t) && t.stop == s.stop && Nearer(Remaining(t), Remaining(s))
  {
    StepKeeps(s, a, "");
    hide Inv, Eventual, Temp, IsTemp;
    if a.Begin? { RemovingShrinks(s.worker.jobs, a.path); }
    if a.Complete? || a.Fail? { RemovingShrinks(s.worker.jobs, s.worker.path); }
  }

  /** The thread can go on until it rests, and is gone after a stop, so the destructor returns; if no write
      fails on the way, every path then holds what was last asked for it. */
  lemma ThreadSettles(s: State, path: Name) returns (actions: seq<Action>)
    requires Inv(s) && !IsTemp(path)
    ensures forall a <- actions :: OfThread(a) && Smooth(a)
    ensures var end := RunOn(s, actions);
            AtRest(end) && (s.stop ==> end.worker.Finished?) && Look(end.disk, path) == Eventual(s, path)
    decreases Remaining(s).rounds, Remaining(s).jobs, Remaining(s).toBegin, Remaining(s).bytes
  {
    if AtRest(s) {
      return [];
    }
    hide Step, IsTemp, Eventual;
    var a := SomeStep(s);
    EveryStepIsNearer(s, a);
    StepKeeps(s, a, path);
    var rest := ThreadSettles(Step(ByRename, s, a), path);
    actions := [a] + rest;
  }

  function RunOn(s: State, actions: seq<Action>): State
    decreases |actions|
  {
    if actions == [] then s else RunOn(Step(ByRename, s, actions[0]), actions[1..])
  }

  /** Until it rests the thread always has a step that does not fail. */
  lemma SomeStep(s: State) returns (a: Action)
    requires Inv(s) && !AtRest(s)
    ensures OfThread(a) && Smooth(a) && Enabled(ByRename, s, a)
  {
    var w := s.worker;
    if w.Waiting? {
      a := TakeJobs;
    } else if w.Writing? {
      a := if w.written < |w.jobs[w.path].content| then Append(1) else Complete;
    } else if w.jobs == map[] {
      a := NextRound;
    } else {
      var path :| path in w.jobs;
      a := Begin(path);
    }
  }

  lemma RemovingShrinks<K, V>(m: map<K, V>, k: K)
    requires k in m
    ensures |Without(m, k)| == |m| - 1
  {
    assert m.Keys == Without(m, k).Keys + {k};
    assert |m.Keys| == |Without(m, k).Keys| + 1;
  }
}
