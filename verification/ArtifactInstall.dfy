/** Building does install (src/torchinferno/kernels/deepseek_v4_tilelang_builder.py): whatever has happened
  to a directory of artifacts, and whoever crashed where, a builder can still complete a key. */
module ArtifactInstall {
  import opened ArtifactProtocol

  function Last(r: seq<State>): State
    requires r != []
  {
    r[|r| - 1]
  }

  /** u goes on where r stops. */
  ghost predicate Continues(r: seq<State>, u: seq<State>) {
    Run(u) && |r| <= |u| && u[..|r|] == r
  }

  lemma GoOn(r: seq<State>, t: State, p: Pid) returns (u: seq<State>)
    requires Run(r) && r != [] && Step(Last(r), t, p)
    ensures Continues(r, u) && u != [] && Last(u) == t
  {
    hide Step;
    assert Next(Last(r), t);
    RunGrows(r, t);
    u := r + [t];
  }

  lemma ContinuesOn(r: seq<State>, u: seq<State>, v: seq<State>)
    requires Continues(r, u) && Continues(u, v)
    ensures Continues(r, v)
  {
    hide Run;
    assert v[..|r|] == v[..|u|][..|r|];
  }

  // ----- a lock is held by someone who can give it up -----

  ghost predicate LockHeld(s: State) {
    forall k :: k in s.lock ==> s.lock[k] in s.procs && HoldsLock(s.procs[s.lock[k]], k)
  }

  lemma BuildStays(s: State, t: State, p: Pid)
    requires p in s.procs
    requires var ph := s.procs[p];
      if ph.Writing? then WriteStep(s, t, p, ph.key, ph.tmp, ph.i, ph.open) else ph.Clearing? && ClearStep(s, t, p, ph.key)
    ensures t.procs.Keys == s.procs.Keys && t.lock == s.lock
    ensures forall k :: HoldsLock(s.procs[p], k) ==> HoldsLock(t.procs[p], k)
  {
  }

  lemma LoadStays(s: State, k: Key, i: nat, locked: bool, whole: bool, l: Key)
    requires i < |READS| && HoldsLock(Reading(k, i, locked, whole), l)
    ensures HoldsLock(ReadPhase(s, k, i, locked, whole), l)
  {
  }

  lemma CheckStays(s: State, k: Key)
    ensures HoldsLock(CheckedPhase(s, k), k)
  {
  }

  lemma ProcessesStay(s: State, t: State, p: Pid)
    requires Step(s, t, p)
    ensures t.procs.Keys == s.procs.Keys
  {
    hide ReadPhase, CheckedPhase, HoldsLock, ClearStep, WriteStep;
    if s.procs[p].Writing? && t != Crash(s, p) && t != To(s, p, Leaving(s.procs[p].key)) {
      BuildStays(s, t, p);
    } else if s.procs[p].Clearing? && t != Crash(s, p) {
      BuildStays(s, t, p);
    }
  }

  lemma CrashDrops(s: State, p: Pid, k: Key)
    requires p in s.procs && HoldsLock(s.procs[p], k)
    ensures k !in Crash(s, p).lock
  {
  }

  lemma CrashTakesNothing(s: State, p: Pid, k: Key)
    requires p in s.procs && k in Crash(s, p).lock
    ensures k in s.lock && Crash(s, p).lock[k] == s.lock[k]
  {
  }

  /** A process gives up a lock only by the step that drops it. */
  lemma OwnHeld(s: State, t: State, p: Pid, k: Key)
    requires Step(s, t, p) && p in t.procs && k in t.lock && t.lock[k] == p
    requires k in s.lock && s.lock[k] == p ==> HoldsLock(s.procs[p], k)
    ensures HoldsLock(t.procs[p], k)
  {
    var ph := s.procs[p];
    if t == Crash(s, p) && ph != Idle {
      CrashTakesNothing(s, p, k);
      CrashDrops(s, p, k);
    } else {
      hide ReadPhase, CheckedPhase, ClearStep, WriteStep, Crash;
      match ph
      case Locked(l) => CheckStays(s, l);
      case Reading(l, i, locked, whole) => LoadStays(s, l, i, locked, whole, k);
      case Clearing(l) => BuildStays(s, t, p);
      case Writing(l, tmp, i, open) =>
        if t != To(s, p, Leaving(l)) {
          BuildStays(s, t, p);
        }
      case _ =>
    }
  }

  lemma OtherHeld(s: State, t: State, p: Pid, k: Key)
    requires Step(s, t, p) && k in t.lock && t.lock[k] != p
    ensures k in s.lock && s.lock[k] == t.lock[k]
  {
    hide ReadPhase, CheckedPhase;
  }

  lemma HeldKeeps(s: State, t: State, p: Pid)
    requires LockHeld(s) && Step(s, t, p)
    ensures LockHeld(t)
  {
    OthersSame(s, t, p);
    ProcessesStay(s, t, p);
    assert p in s.procs;
    hide Step, HoldsLock;
    forall k | k in t.lock ensures t.lock[k] in t.procs && HoldsLock(t.procs[t.lock[k]], k) {
      if t.lock[k] == p {
        OwnHeld(s, t, p, k);
      } else {
        OtherHeld(s, t, p, k);
      }
    }
  }

  lemma {:induction false} AlwaysHeld(r: seq<State>, i: nat)
    requires Run(r) && i < |r|
    ensures LockHeld(r[i])
  {
    hide LockHeld, Step;
    if i == 0 {
      NoLockHeld(r[0]);
    } else {
      AlwaysHeld(r, i - 1);
      assert Next(r[i - 1], r[i]);
      var p :| Step(r[i - 1], r[i], p);
      HeldKeeps(r[i - 1], r[i], p);
    }
  }

  lemma NoLockHeld(s: State)
    requires Init(s)
    ensures LockHeld(s)
  {
  }

  lemma CrashIsStep(s: State, p: Pid)
    requires p in s.procs && s.procs[p] != Idle
    ensures Step(s, Crash(s, p), p)
  {
    hide Crash;
  }

  /** Process p is idle and the lock of k is free. */
  predicate Ready(s: State, k: Key, p: Pid) {
    p in s.procs && s.procs[p] == Idle && k !in s.lock
  }

  lemma Stop(r: seq<State>, p: Pid) returns (u: seq<State>)
    requires Run(r) && r != [] && p in Last(r).procs
    ensures Continues(r, u) && u != [] && Last(u).final == Last(r).final
    ensures Last(u).procs == Last(r).procs[p := Idle] && Last(u).lock.Keys <= Last(r).lock.Keys
    ensures forall k :: HoldsLock(Last(r).procs[p], k) ==> k !in Last(u).lock
  {
    hide Step, Run;
    var s := Last(r);
    if s.procs[p] == Idle {
      assert r[..|r|] == r;
      assert s.procs[p := Idle] == s.procs;
      u := r;
    } else {
      CrashIsStep(s, p);
      u := GoOn(r, Crash(s, p), p);
    }
  }

  lemma MakeReady(r: seq<State>, k: Key, p: Pid) returns (u: seq<State>)
    requires Run(r) && r != [] && p in Last(r).procs
    ensures Continues(r, u) && u != [] && Ready(Last(u), k, p) && Last(u).final == Last(r).final
  {
    hide Run, HoldsLock;
    u := Stop(r, p);
    if k in Last(u).lock {
      AlwaysHeld(u, |u| - 1);
      var q := Last(u).lock[k];
      var v := Stop(u, q);
      ContinuesOn(r, u, v);
      u := v;
    }
  }

  // ----- one builder, undisturbed -----

  lemma Begin(r: seq<State>, k: Key, p: Pid) returns (u: seq<State>)
    requires Run(r) && r != [] && Ready(Last(r), k, p)
    ensures Continues(r, u) && u != [] && Last(u).final == Last(r).final
    ensures p in Last(u).procs && Last(u).procs[p] == CheckedPhase(Last(r), k)
  {
    hide Run, CheckedPhase;
    var s := Last(r);
    var t1 := To(s, p, Waiting(k));
    StepBegins(s, p, k);
    u := GoOn(r, t1, p);
    var t2 := To(t1, p, Locked(k)).(lock := t1.lock[k := p]);
    StepLocks(t1, p, k);
    var v := GoOn(u, t2, p);
    ContinuesOn(r, u, v);
    StepChecks(t2, p, k);
    u := GoOn(v, To(t2, p, CheckedPhase(t2, k)), p);
    ContinuesOn(r, v, u);
    CheckedSame(s, t2, k);
  }

  lemma CheckedSame(s: State, t: State, k: Key)
    requires s.final == t.final
    ensures CheckedPhase(s, k) == CheckedPhase(t, k)
  {
  }

  lemma StepBegins(s: State, p: Pid, k: Key)
    requires p in s.procs && s.procs[p] == Idle
    ensures Step(s, To(s, p, Waiting(k)), p)
  {
  }

  lemma StepLocks(s: State, p: Pid, k: Key)
    requires p in s.procs && s.procs[p] == Waiting(k) && k !in s.lock
    ensures Step(s, To(s, p, Locked(k)).(lock := s.lock[k := p]), p)
  {
    hide Crash;
  }

  lemma StepChecks(s: State, p: Pid, k: Key)
    requires p in s.procs && s.procs[p] == Locked(k)
    ensures Step(s, To(s, p, CheckedPhase(s, k)), p)
  {
    hide Crash;
  }

  /** Clearing comes to an end, with nothing left at k. */
  lemma {:induction false} Clear(r: seq<State>, k: Key, p: Pid) returns (u: seq<State>)
    requires Run(r) && r != [] && p in Last(r).procs && Last(r).procs[p] == Clearing(k) && k in Last(r).final
    ensures Continues(r, u) && u != [] && p in Last(u).procs && Last(u).procs[p] == Compiling(k)
    ensures k !in Last(u).final
    decreases |Last(r).final[k]|
  {
    hide Run;
    var s := Last(r);
    if s.final[k] == map[] {
      var t := To(s, p, Compiling(k)).(final := s.final - {k});
      StepClears(s, t, p, k);
      u := GoOn(r, t, p);
    } else {
      var f :| f in s.final[k];
      var t := s.(final := s.final[k := s.final[k] - {f}]);
      assert t == s.(final := s.final[k := s.final[k] - {f}]);
      StepClears(s, t, p, k);
      var v := GoOn(r, t, p);
      assert (s.final[k] - {f}).Keys == s.final[k].Keys - {f};
      assert |s.final[k] - {f}| == |(s.final[k] - {f}).Keys| < |s.final[k].Keys|;
      u := Clear(v, k, p);
      ContinuesOn(r, v, u);
    }
  }

  lemma StepClears(s: State, t: State, p: Pid, k: Key)
    requires p in s.procs && s.procs[p] == Clearing(k) && ClearStep(s, t, p, k)
    ensures Step(s, t, p)
  {
    hide Crash, ClearStep;
  }

  lemma StepCompiles(s: State, p: Pid, k: Key)
    requires p in s.procs && s.procs[p] == Compiling(k)
    ensures Step(s, To(s, p, Writing(k, map[], 0, false)), p)
  {
    hide Crash;
  }

  lemma StepWrites(s: State, t: State, p: Pid)
    requires p in s.procs && s.procs[p].Writing?
    requires var ph := s.procs[p]; WriteStep(s, t, p, ph.key, ph.tmp, ph.i, ph.open)
    ensures Step(s, t, p)
  {
    hide Crash, WriteStep;
  }

  /** The files are written one after the other, and the rename makes them visible. */
  lemma {:induction false} Write(r: seq<State>, k: Key, p: Pid, tmp: Dir, i: nat) returns (u: seq<State>)
    requires Run(r) && r != [] && p in Last(r).procs && Last(r).procs[p] == Writing(k, tmp, i, false)
    requires k !in Last(r).final && TmpSoFar(tmp, i, false)
    ensures Continues(r, u) && u != [] && k in Last(u).final && Complete(Last(u).final[k])
    decreases |WRITES| - i
  {
    hide Run, TmpSoFar, Complete;
    var s := Last(r);
    if i < |WRITES| {
      var t1 := To(s, p, Writing(k, tmp[WRITES[i] := false], i, true));
      StepWrites(s, t1, p);
      u := GoOn(r, t1, p);
      var whole := tmp[WRITES[i] := false][WRITES[i] := true];
      var t2 := To(t1, p, Writing(k, whole, i + 1, false));
      StepWrites(t1, t2, p);
      var v := GoOn(u, t2, p);
      ContinuesOn(r, u, v);
      TmpGrows(tmp, i, false);
      TmpGrows(tmp[WRITES[i] := false], i, true);
      u := Write(v, k, p, whole, i + 1);
      ContinuesOn(r, v, u);
    } else {
      TmpIndex(tmp, i);
      TmpComplete(tmp);
      var t := To(s, p, Leaving(k)).(final := s.final[k := tmp]);
      StepWrites(s, t, p);
      u := GoOn(r, t, p);
    }
  }

  lemma TmpIndex(tmp: Dir, i: nat)
    requires TmpSoFar(tmp, i, false)
    ensures i <= |WRITES|
  {
  }

  /** From every state of every run some process can still make k complete, unless a directory with
      metadata, but not complete, is there. */
  lemma Install(r: seq<State>, k: Key, p: Pid) returns (u: seq<State>)
    requires Run(r) && r != [] && p in Last(r).procs
    requires var f := Last(r).final; k !in f || Metadata !in f[k] || Complete(f[k])
    ensures Continues(r, u) && u != [] && k in Last(u).final && Complete(Last(u).final[k])
  {
    hide Run, Complete, CheckedPhase, TmpSoFar, HoldsLock;
    if k in Last(r).final && Metadata in Last(r).final[k] {
      assert r[..|r|] == r;
      u := r;
    } else {
      var v := MakeReady(r, k, p);
      var w := Begin(v, k, p);
      ContinuesOn(r, v, w);
      ChecksToBuild(Last(v), k);
      if k in Last(w).final {
        var x := Clear(w, k, p);
        ContinuesOn(r, w, x);
        w := x;
      }
      StepCompiles(Last(w), p, k);
      var y := GoOn(w, To(Last(w), p, Writing(k, map[], 0, false)), p);
      ContinuesOn(r, w, y);
      TmpStarts();
      u := Write(y, k, p, map[], 0);
      ContinuesOn(r, y, u);
    }
  }

  lemma ChecksToBuild(s: State, k: Key)
    requires k in s.final ==> Metadata !in s.final[k]
    ensures CheckedPhase(s, k) == if k in s.final then Clearing(k) else Compiling(k)
  {
  }

  /** After any run, k can still become complete exactly when no directory with metadata, but not
      complete, is there; neither crashes nor what was found can prevent it otherwise. */
  lemma InstallableIff(r: seq<State>, k: Key)
    requires Run(r) && r != [] && Last(r).procs != map[]
    ensures (exists u :: Continues(r, u) && u != [] && k in Last(u).final && Complete(Last(u).final[k]))
       <==> (k in Last(r).final && Metadata in Last(r).final[k] ==> Complete(Last(r).final[k]))
  {
    hide Run, Complete;
    if k in Last(r).final && Metadata in Last(r).final[k] ==> Complete(Last(r).final[k]) {
      var p :| p in Last(r).procs;
      var u := Install(r, k, p);
    }
    if k in Last(r).final && Metadata in Last(r).final[k] {
      if u: seq<State> :| Continues(r, u) && u != [] && k in Last(u).final && Complete(Last(u).final[k]) {
        assert u[|r| - 1] == Last(r);
        InstalledForever(u, |r| - 1, |u| - 1, k);
      }
    }
  }

  /** In some run from what was found, a complete artifact comes to lie at k, exactly when none with
      metadata, but not complete, was found there. */
  lemma InstallsIff(found: map<Key, Dir>, k: Key)
    ensures (exists r: seq<State>, i: nat :: Run(r) && i < |r| && r[0].final == found && k in r[i].final && Complete(r[i].final[k]))
       <==> k !in found || Metadata !in found[k] || Complete(found[k])
  {
    hide Complete, Step;
    if k !in found || Metadata !in found[k] || Complete(found[k]) {
      var r := [State(found, map[], map[0 := Idle])];
      assert Run(r);
      var u := Install(r, k, 0);
      var i := |u| - 1;
      assert u[..1] == r && Run(u) && i < |u| && u[0].final == found && k in u[i].final && Complete(u[i].final[k]);
    }
    if k in found && Metadata in found[k] {
      if r: seq<State>, i: nat :|
        Run(r) && i < |r| && r[0].final == found && k in r[i].final && Complete(r[i].final[k])
      {
        InstalledForever(r, 0, i, k);
      }
    }
  }
}
