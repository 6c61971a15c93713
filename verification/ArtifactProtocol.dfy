/** The kernel-artifact directory as a protocol between processes: builders
  (src/torchinferno/kernels/deepseek_v4_tilelang_builder.py) that lock, check, build aside and
  rename, and readers (src/torchinferno/kernels/deepseek_v4_tilelang.py) that take no lock.

  Every file-system effect is a step of its own, steps of different processes interleave freely, and
  a process may stop at any step; the operating system then drops its lock. */
module ArtifactProtocol {
  type Pid = nat
  type Key = string

  datatype File = PrimFunc | Device | Host | Params | Library | Metadata

  /** The files of a directory; false for one that is created but not fully written. */
  type Dir = map<File, bool>

  /** The order in which the builder writes, and that in which a load reads. */
  const WRITES := [PrimFunc, Device, Host, Params, Library, Metadata]
  const READS := [Metadata, Params, Host, Device, PrimFunc, Library]

  predicate Complete(d: Dir) {
    forall f: File :: f in d && d[f]
  }

  /** The files a load parses: it raises when one of them is cut short. A source text that is cut short
      is read as it is, and the library only has to be there. */
  predicate Parsed(f: File) {
    f == Metadata || f == Params || f == PrimFunc
  }

  predicate Accepts(d: Dir, f: File) {
    f in d && (Parsed(f) ==> d[f])
  }

  /** A load of this directory does not raise. */
  predicate Loadable(d: Dir) {
    forall f: File :: Accepts(d, f)
  }

  datatype Phase =
    | Idle
    | Waiting(key: Key)                                  // blocked in flock
    | Locked(key: Key)                                   // about to look for metadata.json
    | Clearing(key: Key)                                 // rmtree of what was left at the path
    | Compiling(key: Key)
    | Writing(key: Key, tmp: Dir, i: nat, open: bool)    // filling the temporary directory
    | Leaving(key: Key)                                  // done or failed, about to drop the lock
    | Reading(key: Key, i: nat, locked: bool, whole: bool)    // _load_artifact, i files read
    | Stopped(key: Key, locked: bool)                    // the load raised
    | Loaded(key: Key, locked: bool, whole: bool)        // whole: every file it read was finished

  datatype State = State(final: map<Key, Dir>, lock: map<Key, Pid>, procs: map<Pid, Phase>)

  /** The phases in which a process holds the lock of its key. */
  predicate HoldsLock(ph: Phase, k: Key) {
    match ph
    case Idle => false
    case Waiting(_) => false
    case Locked(key) => key == k
    case Clearing(key) => key == k
    case Compiling(key) => key == k
    case Writing(key, _, _, _) => key == k
    case Leaving(key) => key == k
    case Reading(key, _, locked, _) => key == k && locked
    case Stopped(key, locked) => key == k && locked
    case Loaded(key, locked, _) => key == k && locked
  }

  /** Between the metadata check that failed and the rename. */
  predicate Building(ph: Phase, k: Key) {
    ph == Clearing(k) || ph == Compiling(k) || (ph.Writing? && ph.key == k)
  }

  function To(s: State, p: Pid, ph: Phase): State {
    s.(procs := s.procs[p := ph])
  }

  function Unlock(s: State, k: Key): State {
    s.(lock := s.lock - {k})
  }

  /** What a builder that holds the lock does next: load, clear what is left, or compile. */
  function CheckedPhase(s: State, k: Key): Phase {
    if k in s.final && Metadata in s.final[k] then Reading(k, 0, true, true)
    else if k in s.final then Clearing(k)
    else Compiling(k)
  }

  /** Where a load comes by reading file i. */
  function ReadPhase(s: State, k: Key, i: nat, locked: bool, whole: bool): Phase
    requires i < |READS|
  {
    if k in s.final && Accepts(s.final[k], READS[i]) then
      var w := whole && s.final[k][READS[i]];
      if i + 1 == |READS| then Loaded(k, locked, w) else Reading(k, i + 1, locked, w)
    else Stopped(k, locked)
  }

  /** One step of process p. */
  ghost predicate Step(s: State, t: State, p: Pid)
  {
    p in s.procs &&
    match s.procs[p]
    case Idle =>
      (exists k :: t == To(s, p, Waiting(k))) ||                                     // build_kernel
      (exists k :: k in s.final && t == To(s, p, Reading(k, 0, false, true))) || t == s    // _kernel
    case Waiting(k) => t == Crash(s, p) || (k !in s.lock && t == To(s, p, Locked(k)).(lock := s.lock[k := p]))
    case Locked(k) => t == Crash(s, p) || t == To(s, p, CheckedPhase(s, k))
    case Clearing(k) => t == Crash(s, p) || ClearStep(s, t, p, k)
    case Compiling(k) => t == Crash(s, p) || t == To(s, p, Writing(k, map[], 0, false))
    case Writing(k, tmp, i, open) =>
      t == Crash(s, p) || t == To(s, p, Leaving(k)) || WriteStep(s, t, p, k, tmp, i, open)
    case Leaving(k) => t == Crash(s, p)
    case Reading(k, i, locked, whole) =>
      t == Crash(s, p) || (i < |READS| && t == To(s, p, ReadPhase(s, k, i, locked, whole)))
    case Stopped(k, locked) => t == Crash(s, p)
    case Loaded(k, locked, whole) => t == Crash(s, p)
  }

  /** Stopping, by returning, raising or dying: the process is gone and its lock with it. */
  function Crash(s: State, p: Pid): State
    requires p in s.procs
  {
    var ph := s.procs[p];
    var u := To(s, p, Idle);
    if ph != Idle && HoldsLock(ph, ph.key) then Unlock(u, ph.key) else u
  }

  /** rmtree removes one file after the other, then the directory. */
  ghost predicate ClearStep(s: State, t: State, p: Pid, k: Key) {
    if k !in s.final then t == To(s, p, Compiling(k))
    else if s.final[k] == map[] then t == To(s, p, Compiling(k)).(final := s.final - {k})
    else exists f :: f in s.final[k] && t == s.(final := s.final[k := s.final[k] - {f}])
  }

  /** Create the next file, finish it, or rename when all are finished; a rename onto a directory
      that is not empty fails. */
  ghost predicate WriteStep(s: State, t: State, p: Pid, k: Key, tmp: Dir, i: nat, open: bool) {
    if i < |WRITES| then
      t == To(s, p, if open then Writing(k, tmp[WRITES[i] := true], i + 1, false)
                    else Writing(k, tmp[WRITES[i] := false], i, true))
    else if k in s.final && s.final[k] != map[] then t == To(s, p, Leaving(k))
    else t == To(s, p, Leaving(k)).(final := s.final[k := tmp])
  }

  ghost predicate Next(s: State, t: State) {
    exists p :: Step(s, t, p)
  }

  /** Before any process runs; what lies at the final paths is arbitrary. */
  ghost predicate Init(s: State) {
    s.lock == map[] && forall p :: p in s.procs ==> s.procs[p] == Idle
  }

  ghost predicate Run(r: seq<State>) {
    |r| > 0 && Init(r[0]) && forall i, j :: 0 <= i < j == i + 1 < |r| ==> Next(r[i], r[j])
  }

  // ----- the invariant -----

  /** What may be visible at k, given what was found there: a complete artifact, the unchanged
      directory that was found with metadata in it, or what is left of one found without. */
  ghost predicate MayShow(found: map<Key, Dir>, k: Key, d: Dir) {
    || Complete(d)
    || (k in found && d == found[k] && Metadata in d)
    || (k in found && Metadata !in found[k] && Metadata !in d)
  }

  ghost predicate TmpSoFar(tmp: Dir, i: nat, open: bool) {
    i <= |WRITES| && (open ==> i < |WRITES|) && forall j :: 0 <= j < i ==> WRITES[j] in tmp && tmp[WRITES[j]]
  }

  /** The first i files of a load were finished. */
  predicate WholeSoFar(d: Dir, i: nat)
    requires i <= |READS|
  {
    forall j :: 0 <= j < i ==> READS[j] in d && d[READS[j]]
  }

  predicate AcceptedSoFar(d: Dir, i: nat)
    requires i <= |READS|
  {
    forall j :: 0 <= j < i ==> Accepts(d, READS[j])
  }

  /** A load that read i files: it read them all from the directory that is there now, unless what was
      found is not loadable. */
  ghost predicate LoadInv(found: map<Key, Dir>, final: map<Key, Dir>, k: Key, i: nat, whole: bool) {
    && i < |READS|
    && ((k in found && !Loadable(found[k])) || (k in final && Metadata in final[k]))
    && (if i == 0 then whole
        else k in final && AcceptedSoFar(final[k], i) && (whole <==> WholeSoFar(final[k], i)))
  }

  /** What holds of process p alone. */
  ghost predicate ProcInv(found: map<Key, Dir>, final: map<Key, Dir>, ph: Phase) {
    match ph
    case Clearing(k) => k in final ==> Metadata !in final[k] && k in found && Metadata !in found[k]
    case Compiling(k) => k !in final
    case Writing(k, tmp, i, open) => k !in final && TmpSoFar(tmp, i, open)
    case Reading(k, i, locked, whole) => LoadInv(found, final, k, i, whole)
    case Stopped(k, locked) => k in found && !Loadable(found[k])
    case Loaded(k, locked, whole) => !whole ==> k in found && Loadable(found[k]) && !Complete(found[k])
    case _ => true
  }

  ghost predicate LockInv(s: State) {
    forall p, k :: p in s.procs && HoldsLock(s.procs[p], k) ==> k in s.lock && s.lock[k] == p
  }

  ghost predicate Inv(found: map<Key, Dir>, s: State) {
    && LockInv(s)
    && (forall k :: k in s.final ==> MayShow(found, k, s.final[k]))
    && (forall p :: p in s.procs ==> ProcInv(found, s.final, s.procs[p]))
  }

  lemma InitKeeps(s: State)
    requires Init(s)
    ensures Inv(s.final, s)
  {
  }

  lemma CheckedHolds(s: State, k: Key, l: Key)
    ensures HoldsLock(CheckedPhase(s, k), l) ==> l == k
  {
  }

  lemma ReadHolds(s: State, k: Key, i: nat, locked: bool, whole: bool, l: Key)
    requires i < |READS|
    ensures HoldsLock(ReadPhase(s, k, i, locked, whole), l) ==> HoldsLock(Reading(k, i, locked, whole), l)
  {
  }

  lemma BuildStepHolds(s: State, t: State, p: Pid, l: Key)
    requires p in s.procs && p in t.procs && HoldsLock(t.procs[p], l)
    requires var ph := s.procs[p];
      if ph.Writing? then WriteStep(s, t, p, ph.key, ph.tmp, ph.i, ph.open) else ph.Clearing? && ClearStep(s, t, p, ph.key)
    ensures HoldsLock(s.procs[p], l) && t.lock == s.lock
  {
  }

  /** The lock after a step: its own process may take or drop it, and gets no other. */
  lemma OwnLock(s: State, t: State, p: Pid, k: Key)
    requires LockInv(s) && Step(s, t, p) && p in t.procs && HoldsLock(t.procs[p], k)
    ensures k in t.lock && t.lock[k] == p
  {
    hide ReadPhase, CheckedPhase, ClearStep, WriteStep;
    if HoldsLock(s.procs[p], k) {
      assert s.lock[k] == p;
    }
    match s.procs[p]
    case Locked(l) => CheckedHolds(s, l, k);
    case Reading(l, i, locked, whole) =>
      if i < |READS| {
        ReadHolds(s, l, i, locked, whole, k);
      }
    case Clearing(l) => BuildStepHolds(s, t, p, k);
    case Writing(l, tmp, i, open) =>
      if t != To(s, p, Leaving(l)) {
        BuildStepHolds(s, t, p, k);
      }
    case _ =>
  }

  lemma OtherLock(s: State, t: State, p: Pid, q: Pid, k: Key)
    requires LockInv(s) && Step(s, t, p) && q in s.procs && q != p && HoldsLock(s.procs[q], k)
    ensures k in t.lock && t.lock[k] == q
  {
    assert s.lock[k] == q;
    assert !HoldsLock(s.procs[p], k);
  }

  lemma LockKeeps(s: State, t: State, p: Pid)
    requires LockInv(s) && Step(s, t, p)
    ensures LockInv(t)
  {
    OthersSame(s, t, p);
    hide Step, HoldsLock;
    forall q, k | q in t.procs && HoldsLock(t.procs[q], k) ensures k in t.lock && t.lock[k] == q {
      if q == p {
        OwnLock(s, t, p, k);
      } else {
        OtherLock(s, t, p, q, k);
      }
    }
  }

  lemma OthersSame(s: State, t: State, p: Pid)
    requires Step(s, t, p)
    ensures forall q :: q != p && q in t.procs ==> q in s.procs && t.procs[q] == s.procs[q]
  {
  }

  /** Two processes never hold the lock of one key, so at most one is between its metadata check
      and its rename. */
  lemma AtMostOneBuilds(found: map<Key, Dir>, s: State, p: Pid, q: Pid, k: Key)
    requires Inv(found, s) && p in s.procs && q in s.procs
    requires Building(s.procs[p], k) && HoldsLock(s.procs[q], k)
    ensures p == q
  {
    assert HoldsLock(s.procs[p], k);
    assert s.lock[k] == p;
    assert HoldsLock(s.procs[q], k);
    assert s.lock[k] == q;
  }

  lemma TmpComplete(tmp: Dir)
    requires TmpSoFar(tmp, |WRITES|, false)
    ensures Complete(tmp)
  {
    forall f: File ensures f in tmp && tmp[f] {
      var j := match f case PrimFunc => 0 case Device => 1 case Host => 2 case Params => 3 case Library => 4 case Metadata => 5;
      assert WRITES[j] == f;
    }
  }

  ghost predicate SameAt(a: map<Key, Dir>, b: map<Key, Dir>, k: Key) {
    (k in a <==> k in b) && (k in a ==> a[k] == b[k])
  }

  /** A step changes nothing but the directory its process is building. */
  lemma TouchesOwn(s: State, t: State, p: Pid, k: Key)
    requires Step(s, t, p)
    ensures SameAt(s.final, t.final, k) || Building(s.procs[p], k)
  {
  }

  /** A directory with metadata in it is never changed again. */
  lemma InstalledStays(found: map<Key, Dir>, s: State, t: State, p: Pid, k: Key)
    requires Inv(found, s) && Step(s, t, p)
    requires k in s.final && Metadata in s.final[k]
    ensures k in t.final && t.final[k] == s.final[k]
  {
    TouchesOwn(s, t, p, k);
    assert p in s.procs;
    hide Step, TmpSoFar, LoadInv, MayShow;
    assert ProcInv(found, s.final, s.procs[p]);
  }

  lemma FinalKeeps(found: map<Key, Dir>, s: State, t: State, p: Pid, k: Key)
    requires Inv(found, s) && Step(s, t, p) && k in t.final
    ensures MayShow(found, k, t.final[k])
  {
    hide Complete, TmpSoFar, LockInv, LoadInv, ReadPhase, CheckedPhase;
    assert ProcInv(found, s.final, s.procs[p]);
    assert k in s.final ==> MayShow(found, k, s.final[k]);
    if s.procs[p].Writing? && s.procs[p].i >= |WRITES| {
      TmpClosed(found, s, p);
      TmpComplete(s.procs[p].tmp);
    }
  }

  lemma TmpClosed(found: map<Key, Dir>, s: State, p: Pid)
    requires p in s.procs && ProcInv(found, s.final, s.procs[p]) && s.procs[p].Writing? && s.procs[p].i >= |WRITES|
    ensures TmpSoFar(s.procs[p].tmp, |WRITES|, false)
  {
  }

  lemma TmpStarts()
    ensures TmpSoFar(map[], 0, false)
  {
  }

  lemma TmpGrows(tmp: Dir, i: nat, open: bool)
    requires TmpSoFar(tmp, i, open) && i < |WRITES|
    ensures open ==> TmpSoFar(tmp[WRITES[i] := true], i + 1, false)
    ensures !open ==> TmpSoFar(tmp[WRITES[i] := false], i, true)
  {
    assert forall j, k :: 0 <= j < k < |WRITES| ==> WRITES[j] != WRITES[k];
  }

  /** A load begins: either the directory has metadata or what was found there is not loadable. */
  lemma ReadingStarts(found: map<Key, Dir>, s: State, k: Key, locked: bool)
    requires k in s.final && MayShow(found, k, s.final[k])
    ensures ProcInv(found, s.final, Reading(k, 0, locked, true))
  {
    if k in found && Metadata !in found[k] {
      assert !Accepts(found[k], Metadata);
    }
    if Complete(s.final[k]) {
      CompleteHasMetadata(s.final[k]);
    }
  }

  /** A load that stops, or that ends on a file that is not finished, met a directory that was found. */
  lemma LoadStops(found: map<Key, Dir>, final: map<Key, Dir>, k: Key, i: nat, whole: bool)
    requires LoadInv(found, final, k, i, whole) && (k in final ==> MayShow(found, k, final[k]))
    requires !(k in final && Accepts(final[k], READS[i]))
    ensures k in found && !Loadable(found[k])
  {
    hide WholeSoFar, AcceptedSoFar;
    assert k in final ==> !Loadable(final[k]) && !Complete(final[k]);
  }

  lemma LoadEnds(found: map<Key, Dir>, final: map<Key, Dir>, k: Key, whole: bool)
    requires k in final && AcceptedSoFar(final[k], |READS|) && MayShow(found, k, final[k])
    requires whole <==> WholeSoFar(final[k], |READS|)
    ensures !whole ==> k in found && Loadable(found[k]) && !Complete(found[k])
  {
    hide AcceptedSoFar, WholeSoFar;
    AllAccepted(final[k]);
    assert Accepts(final[k], Metadata);
    if !whole {
      assert !Complete(final[k]) by {
        if Complete(final[k]) {
          AllWhole(final[k]);
        }
      }
    }
  }

  lemma AllWhole(d: Dir)
    ensures Complete(d) <==> WholeSoFar(d, |READS|)
  {
    if WholeSoFar(d, |READS|) {
      AllRead(d);
    }
  }

  lemma AllAccepted(d: Dir)
    ensures Loadable(d) <==> AcceptedSoFar(d, |READS|)
  {
    hide Accepts;
    if AcceptedSoFar(d, |READS|) {
      forall f: File ensures Accepts(d, f) {
        var j := Place(f);
        assert READS[j] == f;
      }
    }
  }

  /** The place of a file in the order of reading. */
  function Place(f: File): (j: nat)
    ensures j < |READS| && READS[j] == f
  {
    match f
    case Metadata => 0
    case Params => 1
    case Host => 2
    case Device => 3
    case PrimFunc => 4
    case Library => 5
  }

  lemma ReadingGoesOn(found: map<Key, Dir>, s: State, k: Key, i: nat, locked: bool, whole: bool)
    requires LoadInv(found, s.final, k, i, whole) && (k in s.final ==> MayShow(found, k, s.final[k]))
    ensures ProcInv(found, s.final, ReadPhase(s, k, i, locked, whole))
  {
    hide MayShow, Loadable, Complete;
    if k in s.final && Accepts(s.final[k], READS[i]) {
      var d := s.final[k];
      assert i == 0 ==> READS[i] == Metadata;
      assert AcceptedSoFar(d, i + 1);
      assert WholeSoFar(d, i + 1) <==> whole && d[READS[i]];
      if i + 1 == |READS| {
        LoadEnds(found, s.final, k, whole && d[READS[i]]);
      }
    } else {
      LoadStops(found, s.final, k, i, whole);
    }
  }

  lemma ClearingGoesOn(found: map<Key, Dir>, s: State, t: State, p: Pid, k: Key)
    requires p in s.procs && s.procs[p] == Clearing(k) && ProcInv(found, s.final, Clearing(k)) && ClearStep(s, t, p, k)
    ensures p in t.procs && ProcInv(found, t.final, t.procs[p])
  {
    hide LoadInv, TmpSoFar;
  }

  /** The step's own process, when it begins or checks. */
  lemma OwnBegins(found: map<Key, Dir>, s: State, t: State, p: Pid)
    requires Inv(found, s) && Step(s, t, p) && p in t.procs && (s.procs[p].Idle? || s.procs[p].Waiting?)
    ensures ProcInv(found, t.final, t.procs[p])
  {
    hide TmpSoFar, LockInv, Complete, LoadInv, MayShow;
    if t.procs[p].Reading? {
      ReadingStarts(found, s, t.procs[p].key, false);
    }
  }

  lemma OwnChecks(found: map<Key, Dir>, s: State, p: Pid, k: Key)
    requires Inv(found, s) && p in s.procs
    ensures ProcInv(found, s.final, CheckedPhase(s, k))
  {
    hide LockInv, Complete, LoadInv;
    if k in s.final {
      assert MayShow(found, k, s.final[k]);
      if Metadata in s.final[k] {
        ReadingStarts(found, s, k, true);
      } else {
        NotComplete(s.final[k]);
      }
    }
  }

  lemma OwnWrites(found: map<Key, Dir>, s: State, t: State, p: Pid)
    requires p in s.procs && s.procs[p].Writing? && ProcInv(found, s.final, s.procs[p]) && p in t.procs
    requires var ph := s.procs[p]; WriteStep(s, t, p, ph.key, ph.tmp, ph.i, ph.open)
    ensures ProcInv(found, t.final, t.procs[p])
  {
    hide LoadInv;
    var ph := s.procs[p];
    if ph.i < |WRITES| {
      TmpGrows(ph.tmp, ph.i, ph.open);
      hide TmpSoFar;
    }
  }

  /** The step's own process. */
  lemma OwnKeeps(found: map<Key, Dir>, s: State, t: State, p: Pid)
    requires Inv(found, s) && Step(s, t, p) && p in t.procs
    ensures ProcInv(found, t.final, t.procs[p])
  {
    var ph := s.procs[p];
    assert ProcInv(found, s.final, ph);
    hide TmpSoFar, LockInv, Complete, LoadInv, MayShow, ReadPhase, CheckedPhase, ClearStep, WriteStep;
    if t == Crash(s, p) || t.procs[p].Leaving? {
      return;
    }
    match ph
    case Writing(k, tmp, i, open) => OwnWrites(found, s, t, p);
    case Clearing(k) => ClearingGoesOn(found, s, t, p, k);
    case Idle => OwnBegins(found, s, t, p);
    case Waiting(k) => OwnBegins(found, s, t, p);
    case Locked(k) => OwnChecks(found, s, p, k);
    case Reading(k, i, locked, whole) => ReadingGoesOn(found, s, k, i, locked, whole);
    case Compiling(k) => TmpStarts();
    case _ =>
  }

  lemma CompleteHasMetadata(d: Dir)
    requires Complete(d)
    ensures Metadata in d
  {
  }

  lemma NotComplete(d: Dir)
    requires Metadata !in d
    ensures !Complete(d)
  {
  }

  lemma ProcInvSame(found: map<Key, Dir>, a: map<Key, Dir>, b: map<Key, Dir>, ph: Phase)
    requires ProcInv(found, a, ph) && (ph != Idle ==> SameAt(a, b, ph.key))
    ensures ProcInv(found, b, ph)
  {
    hide TmpSoFar, Loadable, Complete, AcceptedSoFar, WholeSoFar;
  }

  /** Any other process: the directory it relies on is not touched by the step. */
  lemma OtherKeeps(found: map<Key, Dir>, s: State, t: State, p: Pid, q: Pid)
    requires Inv(found, s) && Step(s, t, p) && q in t.procs && q != p
    ensures q in s.procs && t.procs[q] == s.procs[q] && ProcInv(found, t.final, t.procs[q])
  {
    OthersSame(s, t, p);
    var ph := s.procs[q];
    assert ProcInv(found, s.final, ph);
    if ph != Idle {
      TouchesOwn(s, t, p, ph.key);
      if !SameAt(s.final, t.final, ph.key) {
        TouchedOther(found, s, t, p, q);
      } else {
        ProcInvSame(found, s.final, t.final, ph);
      }
    }
  }

  /** When the directory of q's key changes, q is not building, and is not in the middle of a load. */
  lemma TouchedOther(found: map<Key, Dir>, s: State, t: State, p: Pid, q: Pid)
    requires Inv(found, s) && Step(s, t, p) && p in s.procs && q in s.procs && q != p && s.procs[q] != Idle
    requires Building(s.procs[p], s.procs[q].key) && !SameAt(s.final, t.final, s.procs[q].key)
    ensures ProcInv(found, t.final, s.procs[q])
  {
    hide Step, TmpSoFar, Complete, Loadable, MayShow, AcceptedSoFar, WholeSoFar;
    var ph := s.procs[q];
    assert ProcInv(found, s.final, ph);
    if Building(ph, ph.key) {
      BuildersHold(ph, ph.key);
      AtMostOneBuilds(found, s, p, q, ph.key);
    }
    if ph.Reading? {
      if ph.i > 0 {
        FirstAccepted(s.final[ph.key], ph.i);
      }
      if ph.key in s.final && Metadata in s.final[ph.key] {
        InstalledStays(found, s, t, p, ph.key);
      }
    }
  }

  lemma BuildersHold(ph: Phase, k: Key)
    requires Building(ph, k)
    ensures HoldsLock(ph, k)
  {
  }

  lemma FirstAccepted(d: Dir, i: nat)
    requires 0 < i <= |READS| && AcceptedSoFar(d, i)
    ensures Metadata in d
  {
    assert Accepts(d, READS[0]);
  }

  lemma StepKeeps(found: map<Key, Dir>, s: State, t: State, p: Pid)
    requires Inv(found, s) && Step(s, t, p)
    ensures Inv(found, t)
  {
    hide Step, MayShow, ProcInv, LockInv;
    LockKeeps(s, t, p);
    forall k | k in t.final ensures MayShow(found, k, t.final[k]) {
      FinalKeeps(found, s, t, p, k);
    }
    forall q | q in t.procs ensures ProcInv(found, t.final, t.procs[q]) {
      if q == p {
        OwnKeeps(found, s, t, p);
      } else {
        OtherKeeps(found, s, t, p, q);
      }
    }
  }

  // ----- over whole runs -----

  lemma {:induction false} RunKeeps(r: seq<State>, i: nat)
    requires Run(r) && i < |r|
    ensures Inv(r[0].final, r[i])
  {
    hide Inv, Init, Step;
    if i == 0 {
      InitKeeps(r[0]);
    } else {
      RunKeeps(r, i - 1);
      assert Next(r[i - 1], r[i]);
      var p :| Step(r[i - 1], r[i], p);
      StepKeeps(r[0].final, r[i - 1], r[i], p);
    }
  }

  /** Unless an incomplete directory was found at k, a directory that is visible there holds every file. */
  lemma VisibleIsComplete(r: seq<State>, i: nat, k: Key)
    requires Run(r) && i < |r| && k in r[i].final
    requires k in r[0].final ==> Complete(r[0].final[k])
    ensures Complete(r[i].final[k])
  {
    RunKeeps(r, i);
    assert MayShow(r[0].final, k, r[i].final[k]);
    if k in r[0].final {
      CompleteHasMetadata(r[0].final[k]);
    }
  }

  /** What is installed stays as it is, and no process rebuilds or removes it: in particular a
      directory found with metadata but without some other file is never repaired. */
  lemma {:induction false} InstalledForever(r: seq<State>, i: nat, j: nat, k: Key)
    requires Run(r) && i <= j < |r| && k in r[i].final && Metadata in r[i].final[k]
    ensures k in r[j].final && r[j].final[k] == r[i].final[k]
    ensures forall p :: p in r[j].procs ==> !Building(r[j].procs[p], k)
  {
    hide Step, MayShow, Complete, LockInv;
    RunKeeps(r, j);
    if i < j {
      InstalledForever(r, i, j - 1, k);
      RunKeeps(r, j - 1);
      assert Next(r[j - 1], r[j]);
      var p :| Step(r[j - 1], r[j], p);
      InstalledStays(r[0].final, r[j - 1], r[j], p, k);
    }
    forall p | p in r[j].procs ensures !Building(r[j].procs[p], k) {
      assert ProcInv(r[0].final, r[j].final, r[j].procs[p]);
    }
  }

  /** No two processes build one key at a time. */
  lemma OneBuilder(r: seq<State>, i: nat, p: Pid, q: Pid, k: Key)
    requires Run(r) && i < |r| && p in r[i].procs && q in r[i].procs
    requires Building(r[i].procs[p], k) && Building(r[i].procs[q], k)
    ensures p == q
  {
    RunKeeps(r, i);
    AtMostOneBuilds(r[0].final, r[i], p, q, k);
  }

  /** A load that raised, or one that succeeded on a file that is cut short. */
  datatype End = Raised | CutShort

  predicate EndsAs(ph: Phase, end: End) {
    if end == Raised then ph.Stopped? else ph.Loaded? && !ph.whole
  }

  /** In some run, from what was found, a load of k ends so. */
  ghost predicate SomeLoad(found: map<Key, Dir>, k: Key, end: End) {
    exists r: seq<State>, i: nat, p: Pid ::
      Run(r) && r[0].final == found && i < |r| && p in r[i].procs && OfKey(r[i].procs[p], k) && EndsAs(r[i].procs[p], end)
  }

  predicate OfKey(ph: Phase, k: Key) {
    ph != Idle && ph.key == k
  }

  lemma SomeLoadInv(found: map<Key, Dir>, k: Key, end: End) returns (final: map<Key, Dir>, ph: Phase)
    requires SomeLoad(found, k, end)
    ensures OfKey(ph, k) && EndsAs(ph, end) && ProcInv(found, final, ph)
  {
    hide ProcInv, LockInv;
    var r: seq<State>, i: nat, p: Pid :|
      Run(r) && r[0].final == found && i < |r| && p in r[i].procs && OfKey(r[i].procs[p], k) && EndsAs(r[i].procs[p], end);
    RunKeeps(r, i);
    final, ph := r[i].final, r[i].procs[p];
    assert ProcInv(found, final, ph);
  }

  /** A file is missing, or one that is parsed is cut short: metadata, parameters or the kernel's IR. */
  predicate LacksOrCuts(d: Dir) {
    || Metadata !in d || Params !in d || PrimFunc !in d || Device !in d || Host !in d || Library !in d
    || !d[Metadata] || !d[Params] || !d[PrimFunc]
  }

  /** No file is missing and the parsed ones are whole, but a source text or the library is cut short. */
  predicate CutsUnparsed(d: Dir) {
    !LacksOrCuts(d) && (!d[Device] || !d[Host] || !d[Library])
  }

  lemma LoadableIs(d: Dir)
    ensures Loadable(d) <==> !LacksOrCuts(d)
    ensures Loadable(d) && !Complete(d) <==> CutsUnparsed(d)
  {
    assert Loadable(d) ==> Accepts(d, Metadata) && Accepts(d, Params) && Accepts(d, PrimFunc);
    assert Loadable(d) ==> Accepts(d, Device) && Accepts(d, Host) && Accepts(d, Library);
    if !LacksOrCuts(d) {
      forall f: File ensures Accepts(d, f) && ((f in d && d[f]) || f == Device || f == Host || f == Library) {
        assert f.PrimFunc? || f.Device? || f.Host? || f.Params? || f.Library? || f.Metadata?;
      }
      assert CutsUnparsed(d) || Complete(d);
    }
  }

  /** A load of k raises on a missing file or a parsed file that is cut short, in some run, exactly when
      such a directory was lying there at the start: building never produces one. */
  lemma LoadFailsIff(found: map<Key, Dir>, k: Key)
    ensures SomeLoad(found, k, Raised) <==> k in found && LacksOrCuts(found[k])
  {
    hide SomeLoad, Loadable, LacksOrCuts;
    if k in found {
      LoadableIs(found[k]);
    }
    if SomeLoad(found, k, Raised) {
      var final, ph := SomeLoadInv(found, k, Raised);
    }
    if k in found && !Loadable(found[k]) {
      SoloLoad(found, k, Raised);
    }
  }

  /** A load of k succeeds on a file that is cut short, in some run, exactly when a directory was lying
      there at the start that has all files, the parsed ones whole, and some other cut short. */
  lemma TruncatedLoadIff(found: map<Key, Dir>, k: Key)
    ensures SomeLoad(found, k, CutShort) <==> k in found && CutsUnparsed(found[k])
  {
    hide SomeLoad, Loadable, Complete, LacksOrCuts, CutsUnparsed;
    if k in found {
      LoadableIs(found[k]);
    }
    if SomeLoad(found, k, CutShort) {
      var final, ph := SomeLoadInv(found, k, CutShort);
    }
    if k in found && Loadable(found[k]) && !Complete(found[k]) {
      SoloLoad(found, k, CutShort);
    }
  }

  function Reader(found: map<Key, Dir>, ph: Phase): State {
    State(found, map[], map[0 := ph])
  }

  /** How a load of a directory that does not change ends. */
  function LoadEnd(k: Key, d: Dir): Phase {
    if Loadable(d) then Loaded(k, false, Complete(d)) else Stopped(k, false)
  }

  lemma SoloLoad(found: map<Key, Dir>, k: Key, end: End)
    requires k in found && EndsAs(LoadEnd(k, found[k]), end)
    ensures SomeLoad(found, k, end)
  {
    hide Run, LoadEnd;
    var start := SoloStart(found, k);
    var r := SoloRun(found, k, start, 0);
    var i := |r| - 1;
    assert r[i].procs[0] == LoadEnd(k, found[k]);
    EndOfKey(k, found[k]);
  }

  lemma EndOfKey(k: Key, d: Dir)
    ensures OfKey(LoadEnd(k, d), k)
  {
  }

  lemma RunGrows(r: seq<State>, t: State)
    requires Run(r) && Next(r[|r| - 1], t)
    ensures Run(r + [t])
  {
    hide Next;
    var u := r + [t];
    forall i, j | 0 <= i < j == i + 1 < |u| ensures Next(u[i], u[j]) {
    }
  }

  lemma SoloStart(found: map<Key, Dir>, k: Key) returns (r: seq<State>)
    requires k in found
    ensures Run(r) && r == [Reader(found, Idle), Reader(found, Reading(k, 0, false, true))]
  {
    var s, t := Reader(found, Idle), Reader(found, Reading(k, 0, false, true));
    assert k in s.final && t == To(s, 0, Reading(k, 0, false, true));
    assert Step(s, t, 0);
    assert Next(s, t);
    r := [s, t];
  }

  lemma SoloStep(found: map<Key, Dir>, k: Key, i: nat, whole: bool)
    requires k in found && i < |READS|
    ensures var s := Reader(found, Reading(k, i, false, whole));
      Next(s, Reader(found, ReadPhase(s, k, i, false, whole)))
  {
    hide ReadPhase;
    var s := Reader(found, Reading(k, i, false, whole));
    var ph := ReadPhase(s, k, i, false, whole);
    assert To(s, 0, ph) == Reader(found, ph);
    assert Step(s, Reader(found, ph), 0);
  }

  /** A single reader, from file i on, up to the first file it does not accept or to its end. */
  lemma {:induction false} SoloRun(found: map<Key, Dir>, k: Key, r: seq<State>, i: nat) returns (u: seq<State>)
    requires k in found && i < |READS| && Run(r) && |r| > 0 && r[0].final == found
    requires AcceptedSoFar(found[k], i)
    requires r[|r| - 1] == Reader(found, Reading(k, i, false, WholeSoFar(found[k], i)))
    ensures Run(u) && |u| > 0 && u[0].final == found && u[|u| - 1] == Reader(found, LoadEnd(k, found[k]))
    decreases |READS| - i
  {
    hide Next, Init, Run, LoadEnd, ReadPhase;
    var d, s := found[k], r[|r| - 1];
    var t := Reader(found, ReadPhase(s, k, i, false, WholeSoFar(d, i)));
    SoloStep(found, k, i, WholeSoFar(d, i));
    RunGrows(r, t);
    u := r + [t];
    PhaseIs(s, k, d, i);
    if Accepts(d, READS[i]) && i + 1 < |READS| {
      u := SoloRun(found, k, u, i + 1);
    }
  }

  lemma PhaseIs(s: State, k: Key, d: Dir, i: nat)
    requires k in s.final && s.final[k] == d && i < |READS| && AcceptedSoFar(d, i)
    ensures var ph := ReadPhase(s, k, i, false, WholeSoFar(d, i));
      if Accepts(d, READS[i]) && i + 1 < |READS| then
        AcceptedSoFar(d, i + 1) && ph == Reading(k, i + 1, false, WholeSoFar(d, i + 1))
      else ph == LoadEnd(k, d)
  {
    hide Loadable, Complete;
    if Accepts(d, READS[i]) {
      assert AcceptedSoFar(d, i + 1);
      assert WholeSoFar(d, i + 1) <==> WholeSoFar(d, i) && d[READS[i]];
      AllAccepted(d);
      AllWhole(d);
    } else {
      Refused(d, READS[i]);
    }
  }

  lemma Refused(d: Dir, f: File)
    requires !Accepts(d, f)
    ensures !Loadable(d)
  {
  }

  lemma AllRead(d: Dir)
    requires WholeSoFar(d, |READS|)
    ensures Complete(d)
  {
    forall f: File ensures f in d && d[f] {
      assert READS[Place(f)] in d && d[READS[Place(f)]];
    }
  }
}
