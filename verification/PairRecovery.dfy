/** What a restart does with an interrupted transaction: when it goes on, when it
    refuses, and what it ends with. */
module PairRecovery {
  import opened Outcomes
  import opened PairPlan
  import opened PairSafety

  /** A transaction that any further run of the same pair can finish. */
  predicate Recoverable(d: Disk, first: Side, base: Six, next: Six) {
    Marked(d) && MarkersName(d, first) && Promoting(d, base, next)
  }

  /** A marker is left over but a stage is gone. */
  predicate Stuck(d: Disk) {
    Marked(d) && !AllStaged(d)
  }

  /** No trace of a transaction. */
  predicate Clean(d: Disk) {
    !Marked(d) && forall s: Side, a: Artifact :: Path(s, Stage(a)) !in d && Path(s, Promote(a)) !in d
  }

  /** A run that finds a marker promotes something exactly when every marker is its
      own and no stage is missing, and succeeds exactly when the result also passes
      verification. Otherwise it touches nothing. */
  lemma MarkedRunIsExact(d: Disk, q: Request)
    requires Marked(d) && q.independent
    ensures Run(d, q).ops != [] <==> MarkersName(d, q.first) && AllStaged(d)
    ensures Run(d, q).ok <==> MarkersName(d, q.first) && AllStaged(d) && q.postVerified
  {
    var jobs := Jobs(q.first);
    assert |PromoteOps(jobs)| == |PromoteOps(jobs[..5])| + 2;
  }

  function MissingMarkers(d: Disk, first: Side): seq<Op> {
    if BothMarked(d) then [] else MarkerOps(first)
  }

  lemma MarkersStayRecoverable(d: Disk, first: Side, base: Six, next: Six, d': Disk)
    requires Recoverable(d, first, base, next)
    requires CrashState(d, MissingMarkers(d, first), d')
    ensures Recoverable(d', first, base, next)
  {
    if !BothMarked(d) {
      MarkerPhase(d, first, d');
    }
  }

  lemma PromotionStaysRecoverable(d: Disk, first: Side, base: Six, next: Six, d': Disk)
    requires Recoverable(d, first, base, next)
    requires CrashState(d, PromoteOps(Jobs(first)), d')
    ensures Recoverable(d', first, base, next)
  {
    PromoteAll(d, Jobs(first), base, next, d');
    MarkersSurvivePromotion(d, first, d');
  }

  lemma CleanupArrives(d: Disk, first: Side, base: Six, next: Six, d': Disk)
    requires Recoverable(d, first, base, next) && Targets(d) == next
    requires CrashState(d, CleanupOps(first), d')
    ensures Recoverable(d', first, base, next) || Arrived(d', next)
  {
    CleanupPhase(d, first, d');
    UnlinksShrink(d, CleanupOps(first), d');
    MixedWithNew(Targets(d'), base);
  }

  /** The two disks a resumed run passes through: all markers in place, and all
      files promoted. */
  lemma CommitPath(d: Disk, first: Side, base: Six, next: Six) returns (d1: Disk, d2: Disk)
    requires Recoverable(d, first, base, next)
    ensures d1 == ApplyAll(d, MissingMarkers(d, first)) && d2 == ApplyAll(d1, PromoteOps(Jobs(first)))
    ensures d2 == ApplyAll(d, MissingMarkers(d, first) + PromoteOps(Jobs(first)))
    ensures Recoverable(d1, first, base, next) && Recoverable(d2, first, base, next) && Targets(d2) == next
  {
    d1 := ApplyAll(d, MissingMarkers(d, first));
    EndIsCrashState(d, MissingMarkers(d, first));
    MarkersStayRecoverable(d, first, base, next, d1);
    d2 := ApplyAll(d1, PromoteOps(Jobs(first)));
    EndIsCrashState(d1, PromoteOps(Jobs(first)));
    PromotionStaysRecoverable(d1, first, base, next, d2);
    Promoted(d1, first, base, next);
    ApplyAllAppend(d, MissingMarkers(d, first), PromoteOps(Jobs(first)));
  }

  lemma OtherOrderRefuses(d: Disk, first: Side, q: Request)
    requires Marked(d) && MarkersName(d, first) && q.first != first
    ensures Run(d, q).ops == []
  {
    var s :| Path(s, Marker) in d;
    assert d[Path(s, Marker)] == MarkerDoc(first, Other(first)) != MarkerDoc(q.first, Other(q.first));
  }

  /** Interrupting a run of a recoverable transaction, in whichever order it names
      the directories, leaves it recoverable or leaves all six files new. */
  lemma RecoverableUntilArrived(d: Disk, first: Side, base: Six, next: Six, q: Request, d': Disk)
    requires Recoverable(d, first, base, next)
    requires CrashState(d, Run(d, q).ops, d')
    ensures Recoverable(d', first, base, next) || Arrived(d', next)
  {
    if q.first != first {
      OtherOrderRefuses(d, first, q);
    } else if q.independent {
      var m, p := MissingMarkers(d, first), PromoteOps(Jobs(first));
      var d1, d2 := CommitPath(d, first, base, next);
      if q.postVerified {
        CrashSplit(d, m + p, CleanupOps(first), d');
      }
      if CrashState(d, m + p, d') {
        CrashSplit(d, m, p, d');
        if CrashState(d, m, d') {
          MarkersStayRecoverable(d, first, base, next, d');
        } else {
          PromotionStaysRecoverable(d1, first, base, next, d');
        }
      } else {
        CleanupArrives(d2, first, base, next, d');
      }
    }
  }

  /** In a stuck directory pair no run ever changes anything. */
  lemma StuckForever(d: Disk, q: Request, d': Disk)
    requires Stuck(d) && CrashState(d, Run(d, q).ops, d')
    ensures d' == d && !Run(d, q).ok
  {
  }

  /** A run that is not interrupted finishes a recoverable transaction: exactly the
      staged contents, nothing left over, every other file as it was. */
  lemma ResumeCompletes(d: Disk, first: Side, base: Six, next: Six, q: Request)
    requires Recoverable(d, first, base, next)
    requires q.first == first && q.independent && q.postVerified
    ensures var e := ApplyAll(d, Run(d, q).ops);
            && Run(d, q).ok
            && Targets(e) == next
            && Clean(e)
            && forall p: Path | Kept(p.file) :: At(e, p) == At(d, p)
  {
    var m, p, c := MissingMarkers(d, first), PromoteOps(Jobs(first)), CleanupOps(first);
    var d1, d2 := CommitPath(d, first, base, next);
    ApplyAllAppend(d, m + p, c);
    var e := ApplyAll(d2, c);
    EndIsCrashState(d2, c);
    CleanupPhase(d2, first, e);
    CleanupCleans(d2, first);
    EndIsCrashState(d, m + p + c);
    forall x: Path | Kept(x.file) ensures At(e, x) == At(d, x) {
      CommitTouches(d, first, x);
      CrashFrame(d, m + p + c, e, x);
    }
  }

  /** The files that are neither promoted nor scratch: no run changes them once they
      are there. */
  predicate Kept(f: File) {
    f.RawMeasured? || f.RawAttestation? || f.Plain?
  }

  lemma CommitTouches(d: Disk, first: Side, p: Path)
    requires Kept(p.file)
    ensures Untouched(MissingMarkers(d, first) + PromoteOps(Jobs(first)) + CleanupOps(first), p)
  {
    MarkerOpsTouch(first, p);
    PromoteTouches(Jobs(first), p);
  }

  lemma {:induction false} UnlinksRemove(d: Disk, ops: seq<Op>, p: Path)
    requires forall op <- ops :: op.Unlink?
    requires Unlink(p) in ops || p !in d
    ensures p !in ApplyAll(d, ops)
    decreases |ops|
  {
    if ops != [] {
      assert ops[0].Unlink?;
      assert Unlink(p) in ops ==> ops[0] == Unlink(p) || Unlink(p) in ops[1..];
      UnlinksRemove(Apply(d, ops[0]), ops[1..], p);
    }
  }

  lemma CleanSideUnlinks(s: Side, a: Artifact)
    ensures Unlink(Path(s, Marker)) in CleanSide(s)
    ensures Unlink(Path(s, Stage(a))) in CleanSide(s) && Unlink(Path(s, Promote(a))) in CleanSide(s)
  {
    var own := CleanSide(s);
    assert own[0] == Unlink(Path(s, Marker));
    assert own[1] == Unlink(Path(s, Stage(PublicTelemetry))) && own[2] == Unlink(Path(s, Promote(PublicTelemetry)));
    assert own[3] == Unlink(Path(s, Stage(Manifest))) && own[4] == Unlink(Path(s, Promote(Manifest)));
    assert own[5] == Unlink(Path(s, Stage(Provenance))) && own[6] == Unlink(Path(s, Promote(Provenance)));
  }

  lemma InCleanup(first: Side, s: Side, op: Op)
    requires op in CleanSide(s)
    ensures op in CleanupOps(first)
  {
    var i :| 0 <= i < |CleanSide(s)| && CleanSide(s)[i] == op;
    assert CleanupOps(first)[if s == first then i else i + |CleanSide(first)|] == op;
  }

  lemma CleanupCleans(d: Disk, first: Side)
    ensures Clean(ApplyAll(d, CleanupOps(first)))
  {
    var ops := CleanupOps(first);
    var e := ApplyAll(d, ops);
    assert forall op <- ops :: op.Unlink?;
    forall s: Side ensures Path(s, Marker) !in e {
      CleanSideUnlinks(s, Manifest);
      InCleanup(first, s, Unlink(Path(s, Marker)));
      UnlinksRemove(d, ops, Path(s, Marker));
    }
    forall s: Side, a: Artifact ensures Path(s, Stage(a)) !in e && Path(s, Promote(a)) !in e {
      CleanSideUnlinks(s, a);
      InCleanup(first, s, Unlink(Path(s, Stage(a))));
      InCleanup(first, s, Unlink(Path(s, Promote(a))));
      UnlinksRemove(d, ops, Path(s, Stage(a)));
      UnlinksRemove(d, ops, Path(s, Promote(a)));
    }
  }

  /** Crash recovery over any number of interrupted re-runs: the transaction is
      still recoverable, to the same contents, or at some point all six files had
      become exactly those contents. */
  lemma {:induction false} CrashRecovery(states: seq<Disk>, runs: seq<Request>, staged: seq<Option<Six>>, n: nat, first: Side, base: Six, next: Six)
    requires History(states, runs, staged) && n <= |runs|
    requires Recoverable(states[0], first, base, next)
    ensures Recoverable(states[n], first, base, next)
            || exists j: nat :: j <= n && Arrived(states[j], next)
  {
    if n > 0 {
      CrashRecovery(states, runs, staged, n - 1, first, base, next);
      assert Interrupted(states, runs, staged, n - 1);
      if Recoverable(states[n - 1], first, base, next) {
        RecoverableUntilArrived(states[n - 1], first, base, next, runs[n - 1], states[n]);
      }
    }
  }

  predicate Arrived(d: Disk, next: Six) {
    Targets(d) == next && (!Marked(d) || Stuck(d))
  }

  /** The window the code does not close: interrupting the cleanup right after the
      first directory lost its marker and one stage leaves the pair stuck, with all
      six files already new. Completion after every crash is therefore not a
      property of the code; arrival of the contents is. */
  lemma CleanupCanStick(d: Disk, first: Side, base: Six, next: Six, q: Request)
    requires Recoverable(d, first, base, next) && BothMarked(d)
    requires q.first == first && q.independent && q.postVerified
    ensures exists d' :: CrashState(d, Run(d, q).ops, d') && Stuck(d') && Targets(d') == next
  {
    var p, c := PromoteOps(Jobs(first)), CleanupOps(first);
    var d2 := ApplyAll(d, p);
    Promoted(d, first, base, next);
    EndIsCrashState(d, p);
    MarkersSurvivePromotion(d, first, d2);
    var d' := TwoRemoved(d2, first);
    CrashSuffix(d, p, c, d');
    assert Run(d, q).ops == p + c by {
      assert [] + p == p;
    }
  }

  /** Two removals into the cleanup the other directory still has its marker. */
  lemma TwoRemoved(d: Disk, first: Side) returns (d': Disk)
    requires Path(Other(first), Marker) in d
    ensures CrashState(d, CleanupOps(first), d') && Stuck(d') && Targets(d') == Targets(d)
  {
    var c := CleanupOps(first);
    d' := ApplyAll(d, c[..2]);
    assert c == c[..2] + c[2..];
    EndIsCrashState(d, c[..2]);
    CrashPrefix(d, c[..2], c[2..], d');
    var x := Apply(d, c[0]);
    assert c[..2][1..] == [c[1]] && c[..2][1..][1..] == [];
    assert d' == ApplyAll(x, [c[1]]) == ApplyAll(Apply(x, c[1]), []) == Apply(x, c[1]);
    assert Path(first, Stage(PublicTelemetry)) !in d';
    assert Path(Other(first), Marker) in d';
    VersionFrame(d, c[..2], d');
  }

  lemma {:induction false} CrashPrefix(d: Disk, a: seq<Op>, b: seq<Op>, d': Disk)
    requires CrashState(d, a, d')
    ensures CrashState(d, a + b, d')
    decreases |a|
  {
    if a != [] && d' != d {
      assert (a + b)[0] == a[0] && (a + b)[1..] == a[1..] + b;
      if !Torn(d, a[0], d') {
        CrashPrefix(Apply(d, a[0]), a[1..], b, d');
      }
    }
  }

  lemma {:induction false} CrashSuffix(d: Disk, a: seq<Op>, b: seq<Op>, d': Disk)
    requires CrashState(ApplyAll(d, a), b, d')
    ensures CrashState(d, a + b, d')
    decreases |a|
  {
    if a == [] {
      assert a + b == b;
    } else {
      assert (a + b)[0] == a[0] && (a + b)[1..] == a[1..] + b;
      CrashSuffix(Apply(d, a[0]), a[1..], b, d');
    }
  }

  lemma {:induction false} UnlinksKeep(d: Disk, ops: seq<Op>, p: Path)
    requires forall op <- ops :: op.Unlink? && op.at != p
    requires p in d
    ensures p in ApplyAll(d, ops)
    decreases |ops|
  {
    if ops != [] {
      assert ops[0].Unlink? && ops[0].at != p;
      UnlinksKeep(Apply(d, ops[0]), ops[1..], p);
    }
  }

  /** After k steps of the cleanup a file is gone exactly when its removal was one of them. */
  lemma RemovedByThen(d: Disk, first: Side, k: nat, p: Path, at: nat)
    requires p in d && k <= |CleanupOps(first)| && at < |CleanupOps(first)|
    requires CleanupOps(first)[at] == Unlink(p)
    requires forall i | 0 <= i < |CleanupOps(first)| && i != at :: CleanupOps(first)[i] != Unlink(p)
    ensures p in ApplyAll(d, CleanupOps(first)[..k]) <==> k <= at
  {
    var ops := CleanupOps(first)[..k];
    assert forall op <- CleanupOps(first) :: op.Unlink?;
    if k <= at {
      forall op <- ops ensures op.Unlink? && op.at != p {
        var i :| 0 <= i < k && ops[i] == op;
        assert CleanupOps(first)[i] == op && op.Unlink?;
      }
      UnlinksKeep(d, ops, p);
    } else {
      assert ops[at] == Unlink(p);
      UnlinksRemove(d, ops, p);
    }
  }

  lemma CleanupPositions(first: Side)
    ensures var ops := CleanupOps(first);
            && |ops| == 14
            && ops[0] == Unlink(Path(first, Marker)) && ops[7] == Unlink(Path(Other(first), Marker))
            && ops[1] == Unlink(Path(first, Stage(PublicTelemetry)))
            && (forall i | 0 <= i < 14 && i != 0 :: ops[i] != ops[0])
            && (forall i | 0 <= i < 14 && i != 1 :: ops[i] != ops[1])
            && (forall i | 0 <= i < 14 && i != 7 :: ops[i] != ops[7])
  {
    var own, other := CleanSide(first), CleanSide(Other(first));
    assert forall i | 0 <= i < 7 :: CleanupOps(first)[i] == own[i] && CleanupOps(first)[i + 7] == other[i];
  }

  /** Exactly when an interruption sticks: after the second of the fourteen removals
      and before the eighth, from the first stage gone to the last marker gone. */
  lemma CleanupSticksExactly(d: Disk, first: Side, k: nat)
    requires BothMarked(d) && AllStaged(d) && k <= |CleanupOps(first)|
    ensures Stuck(ApplyAll(d, CleanupOps(first)[..k])) <==> 2 <= k <= 7
  {
    CleanupPositions(first);
    var d' := ApplyAll(d, CleanupOps(first)[..k]);
    RemovedByThen(d, first, k, Path(first, Marker), 0);
    RemovedByThen(d, first, k, Path(Other(first), Marker), 7);
    RemovedByThen(d, first, k, Path(first, Stage(PublicTelemetry)), 1);
    if k <= 1 {
      forall s: Side, a: Artifact ensures Path(s, Stage(a)) in d' {
        forall op <- CleanupOps(first)[..k] ensures op.Unlink? && op.at != Path(s, Stage(a)) {
        }
        UnlinksKeep(d, CleanupOps(first)[..k], Path(s, Stage(a)));
      }
    }
  }
}
