/** Cutting a platform over from a source database to one restored from a recovery point, with a
    failure or a crash possible at every effect. Commands run one at a time.

    The state that a crash leaves behind is the state at some effect, so what every method ensures
    for every plan of fates holds between any two effects of any run. */
module Recovery {
  import opened Wrappers

  type AttemptId = nat
  type PointId = nat
  type Generation = nat
  type Token = nat

  /** A database's recovery control row; `cutoff` says whether it has an activation cutoff. */
  datatype Control = Control(active: bool, generation: Generation, cutoff: bool)

  /** A target database before its dump has brought a control row, and after. */
  datatype Database = Blank | Restored(control: Control)

  datatype Record =
    | Prepared(point: PointId, token: Token, generation: Generation)
    | SourceFenced(generation: Generation)
    | DatabaseRestored(generation: Generation)
    | AttachmentsRestored | Verified
    | Approved(point: PointId)
    | Activated(previous: Generation, generation: Generation)
    | Aborted

  datatype World = World(
    source: Control, targets: map<AttemptId, Database>, attempts: map<AttemptId, seq<Record>>,
    lock: Option<Token>, issued: nat)

  /* ---- Records ---- */

  /** The place of a record in the order of the phases. */
  predicate InOrder(r: Record, k: nat) {
    match r
    case Prepared(_, _, _) => k == 0
    case SourceFenced(_) => k == 1
    case DatabaseRestored(_) => k == 2
    case AttachmentsRestored => k == 3
    case Verified => k == 4
    case Approved(_) => k == 5
    case Activated(_, _) => k == 6
    case Aborted => false
  }

  /** The check every append makes on the records it finds. */
  predicate MayAppend(records: seq<Record>, r: Record) {
    && records != [] && !Finished(records)
    && if r.Aborted? then |records| == 1 else InOrder(r, |records|)
  }

  predicate Finished(records: seq<Record>) {
    records != [] && (records[|records| - 1].Aborted? || records[|records| - 1].Activated?)
  }

  predicate HasFenced(records: seq<Record>) { |records| >= 2 && records[1].SourceFenced? }

  predicate IsAborted(records: seq<Record>) { |records| == 2 && records[1].Aborted? }

  /** Phases are a prefix of the order, or PREPARED followed by ABORTED, and every generation they
      name is the prepared one, except the new one of the activation. */
  predicate Sequence(records: seq<Record>) {
    && records != [] && records[0].Prepared?
    && (IsAborted(records) || forall k | 0 <= k < |records| :: InOrder(records[k], k))
    && (|records| > 1 && records[1].SourceFenced? ==> records[1].generation == records[0].generation)
    && (|records| > 2 ==> records[2].DatabaseRestored? && records[2].generation == records[0].generation)
    && (|records| > 5 ==> records[5].Approved? && records[5].point == records[0].point)
    && (|records| > 6 ==> records[6].Activated? && records[6].previous == records[0].generation
                          && records[6].generation != records[0].generation)
  }

  /* ---- What holds in every reachable world ---- */

  /** What the records of one attempt say about the databases. */
  predicate FactsOf(w: World, a: AttemptId)
    requires a in w.attempts
  {
    var records := w.attempts[a];
    && Sequence(records)
    && records[0].token < w.issued
    && (!Finished(records) ==> w.lock == Some(records[0].token))
    && (HasFenced(records) ==> !w.source.active && w.source.generation == records[0].generation)
    && (|records| > 2 ==> a in w.targets && w.targets[a].Restored? && TargetFacts(records, w.targets[a].control))
  }

  /** A restored target is fenced at the recorded generation, or active at a new one once approved. */
  predicate TargetFacts(records: seq<Record>, target: Control)
    requires Sequence(records) && |records| > 2
  {
    && (if target.active then |records| > 5 && target.cutoff && target.generation != records[2].generation
        else |records| <= 6 && target.generation == records[2].generation)
    && (|records| > 6 ==> target.generation == records[6].generation)
  }

  ghost predicate Good(w: World) {
    && (forall a | a in w.attempts :: FactsOf(w, a))
    && (forall a | a in w.targets :: a in w.attempts && HasFenced(w.attempts[a]))
    && (forall a, b | a in w.attempts && b in w.attempts && a != b ::
          && TokenOf(w.attempts[a]) != TokenOf(w.attempts[b])
          && (HasFenced(w.attempts[a]) ==> IsAborted(w.attempts[b])))
    && (w.lock.Some? ==> w.lock.value < w.issued)
  }

  function TokenOf(records: seq<Record>): int {
    if records != [] && records[0].Prepared? then records[0].token else -1
  }

  predicate IsActive(d: Database) { d.Restored? && d.control.active }

  /** At most one authority, of the source and all targets, is active. */
  ghost predicate OneAuthority(w: World) {
    && (forall a | a in w.targets && IsActive(w.targets[a]) :: !w.source.active)
    && (forall a, b | a in w.targets && b in w.targets && IsActive(w.targets[a]) && IsActive(w.targets[b]) :: a == b)
  }

  lemma GoodHasOneAuthority(w: World)
    requires Good(w)
    ensures OneAuthority(w)
  {
    forall a | a in w.targets ensures !w.source.active {
      assert FactsOf(w, a);
    }
  }

  /** Activated by a run that stopped before it could record so. */
  predicate Stranded(w: World, a: AttemptId) {
    a in w.attempts && |w.attempts[a]| == 6 && a in w.targets && IsActive(w.targets[a])
  }

  /* ---- Effects keep the world good ---- */

  lemma FencingIsGood(w: World)
    requires Good(w)
    ensures Good(w.(source := w.source.(active := false)))
  {
    var u := w.(source := w.source.(active := false));
    forall a | a in u.attempts ensures FactsOf(u, a) { assert FactsOf(w, a); }
  }

  lemma PreparingIsGood(w: World, a: AttemptId, r: Record)
    requires Good(w) && a !in w.attempts && r.Prepared? && w.source.active
    requires w.lock == Some(r.token) && r.token < w.issued
    requires forall b | b in w.attempts :: Finished(w.attempts[b]) && TokenOf(w.attempts[b]) != r.token
    ensures Good(w.(attempts := w.attempts[a := [r]]))
  {
    var u := w.(attempts := w.attempts[a := [r]]);
    forall b | b in u.attempts ensures FactsOf(u, b) {
      if b != a { assert FactsOf(w, b); }
    }
    forall b | b in w.attempts ensures !HasFenced(w.attempts[b]) { assert FactsOf(w, b); }
  }

  lemma ReplacingTargetIsGood(w: World, a: AttemptId, d: Database)
    requires Good(w) && a in w.attempts && HasFenced(w.attempts[a])
    requires |w.attempts[a]| > 2 ==> d.Restored? && TargetFacts(w.attempts[a], d.control)
    ensures Good(w.(targets := w.targets[a := d]))
  {
    var u := w.(targets := w.targets[a := d]);
    forall b | b in u.attempts ensures FactsOf(u, b) { assert FactsOf(w, b); }
  }

  lemma DroppingTargetIsGood(w: World, a: AttemptId)
    requires Good(w) && a in w.attempts && |w.attempts[a]| <= 2
    ensures Good(w.(targets := w.targets - {a}))
  {
    var u := w.(targets := w.targets - {a});
    forall b | b in u.attempts ensures FactsOf(u, b) { assert FactsOf(w, b); }
  }

  lemma ReleasingIsGood(w: World, token: Token)
    requires Good(w) && w.lock == Some(token)
    requires forall a | a in w.attempts && TokenOf(w.attempts[a]) == token :: Finished(w.attempts[a])
    ensures Good(w.(lock := None))
  {
    var u := w.(lock := None);
    forall a | a in u.attempts ensures FactsOf(u, a) { assert FactsOf(w, a); }
  }

  /** Appending keeps the world good when the record tells the truth. */
  lemma AppendingIsGood(w: World, a: AttemptId, r: Record)
    requires Good(w) && a in w.attempts && MayAppend(w.attempts[a], r)
    requires var u := w.(attempts := w.attempts[a := w.attempts[a] + [r]]); FactsOf(u, a)
    ensures Good(w.(attempts := w.attempts[a := w.attempts[a] + [r]]))
  {
    var u := w.(attempts := w.attempts[a := w.attempts[a] + [r]]);
    assert FactsOf(w, a);
    forall b | b in u.attempts ensures FactsOf(u, b) {
      if b != a { assert FactsOf(w, b); }
    }
    forall b | b in w.attempts && b != a ensures IsAborted(w.attempts[b]) || !HasFenced(w.attempts[a] + [r]) {
      OthersAreAborted(w, a, b);
    }
  }

  /** While an attempt is unfinished every other one is aborted or has fenced nothing. */
  lemma OthersAreAborted(w: World, a: AttemptId, b: AttemptId)
    requires Good(w) && a in w.attempts && b in w.attempts && a != b && !Finished(w.attempts[a])
    ensures IsAborted(w.attempts[b])
  {
    assert FactsOf(w, a) && FactsOf(w, b);
  }

  /* ---- The commands ---- */

  /** The effects and reads at which a command may fail or crash. */
  datatype Site =
    | ReadPoint | AcquireLock | WritePrepared | ReleaseLock
    | ReadAttempt | CheckLock | ReadSource | FenceSource | RecordSourceFenced
    | DropOldTarget | CreateTarget | RestoreDump | ReadTarget | FenceTarget | CheckTarget | RecordRestored | DropFailedTarget
    | CopyAttachments | RecordAttachments | RecordVerified | RecordApproved
    | VerifyTarget | VerifySource | ActivateTarget | ReadSourceAgain | RecordActivated
    | FindTarget | RecordAborted

  datatype Fate = Proceeds | Fails | Crashes

  type Plan = Site -> Fate

  datatype Outcome = Done | Failed | Crashed

  /** How a command ends at a site that does not proceed. */
  function Stopped(fate: Fate): Outcome { if fate.Crashes? then Crashed else Failed }

  /** What a recovery point restores. */
  type Points = map<PointId, Control>

  /** What a finished `restoreDatabase` leaves of its attempt. */
  predicate RestoredFrom(w: World, a: AttemptId, points: Points) {
    && a in w.attempts && |w.attempts[a]| == 3 && Sequence(w.attempts[a])
    && var first := w.attempts[a][0];
       && first.point in points
       && w.attempts[a][1] == SourceFenced(first.generation) && w.attempts[a][2] == DatabaseRestored(first.generation)
       && a in w.targets && w.targets[a] == Restored(points[first.point].(active := false))
       && w.source.generation == first.generation && !w.source.active
       && w.lock == Some(first.token)
  }

  /** The recovery point's database was active at the prepared generation. */
  predicate FromLineage(first: Record, points: Points) {
    && first.Prepared? && first.point in points
    && points[first.point].active && points[first.point].generation == first.generation
  }

  /** An attempt whose database can still be restored. */
  predicate Restorable(w: World, a: AttemptId, points: Points) {
    && a in w.attempts && w.attempts[a] != [] && w.attempts[a][0].Prepared? && |w.attempts[a]| <= 2 && !Finished(w.attempts[a])
    && var first := w.attempts[a][0];
       && w.lock == Some(first.token) && w.source.generation == first.generation && FromLineage(first, points)
  }

  predicate Smooth(plan: Plan) { forall site :: plan(site) == Proceeds }

  /** Each step that does not proceed fails in an orderly way, so that what stands behind it still runs. */
  predicate NeverCrashes(plan: Plan) { forall site :: !plan(site).Crashes? }

  class RecoverySystem {
    const points: Points
    var source: Control
    var targets: map<AttemptId, Database>
    var attempts: map<AttemptId, seq<Record>>
    var lock: Option<Token>
    var issued: nat

    function View(): World
      reads this
    {
      World(source, targets, attempts, lock, issued)
    }

    ghost predicate Valid()
      reads this
    {
      Good(View())
    }

    constructor (source: Control, points: Points)
      ensures Valid() && View() == World(source, map[], map[], None, 0) && this.points == points
    {
      this.source, this.points := source, points;
      targets, attempts, lock, issued := map[], map[], None, 0;
    }

    /** What no command does to any attempt: records are only appended, and an attempt that stopped
        between the activation of its target and the record of it stays that way. */
    twostate predicate Keeps()
      reads this
    {
      && (forall a | a in old(attempts) :: a in attempts && old(attempts[a]) <= attempts[a])
      && (forall a | old(Stranded(View(), a)) :: Stranded(View(), a) && attempts[a] == old(attempts[a]))
    }

    method Append(a: AttemptId, r: Record)
      requires Valid() && a in attempts && MayAppend(attempts[a], r)
      requires FactsOf(View().(attempts := attempts[a := attempts[a] + [r]]), a)
      modifies this`attempts
      ensures Valid() && attempts == old(attempts)[a := old(attempts[a]) + [r]]
    {
      AppendingIsGood(View(), a, r);
      attempts := attempts[a := attempts[a] + [r]];
    }

    /** Releases the job lock if `token` holds it; an absent lock is fine, another holder is not. */
    method ReleaseJobLock(token: Token, plan: Plan) returns (outcome: Outcome)
      requires Valid()
      requires lock == Some(token) ==> forall a | a in attempts && TokenOf(attempts[a]) == token :: Finished(attempts[a])
      modifies this`lock
      ensures Valid()
      ensures outcome.Done? <==> plan(ReleaseLock).Proceeds? && (old(lock).None? || old(lock) == Some(token))
      ensures lock == if outcome.Done? then None else old(lock)
      ensures NeverCrashes(plan) ==> !outcome.Crashed?
    {
      if plan(ReleaseLock) != Proceeds {
        return Stopped(plan(ReleaseLock));
      }
      if lock.None? {
        return Done;
      }
      if lock != Some(token) {
        return Failed;
      }
      ReleasingIsGood(View(), token);
      lock := None;
      return Done;
    }

    method AcquireJobLock(plan: Plan) returns (outcome: Outcome, token: Token)
      requires Valid()
      modifies this`lock, this`issued
      ensures Valid()
      ensures outcome.Done? <==> plan(AcquireLock).Proceeds? && old(lock).None?
      ensures outcome.Done? ==>
                && lock == Some(token) && token == old(issued) && issued == token + 1
                && forall b | b in attempts :: TokenOf(attempts[b]) != token && Finished(attempts[b])
      ensures !outcome.Done? ==> lock == old(lock) && issued == old(issued)
      ensures NeverCrashes(plan) ==> !outcome.Crashed?
    {
      token := issued;
      if plan(AcquireLock) != Proceeds || lock.Some? {
        return Stopped(plan(AcquireLock)), token;
      }
      LockingIsGood(View());
      lock, issued := Some(token), issued + 1;
      return Done, token;
    }

    /** A preparation gets as far as taking the job lock. */
    predicate TakesLock(point: PointId, plan: Plan)
      reads this
    {
      && plan(ReadPoint).Proceeds? && point in points && plan(ReadSource).Proceeds? && source.active
      && plan(AcquireLock).Proceeds? && lock.None?
    }

    /** Starts an attempt: only from an active source, and only while no other attempt is unfinished. A
        preparation that fails gives the job lock back, unless it crashes or the release fails. */
    method Prepare(point: PointId, a: AttemptId, plan: Plan) returns (outcome: Outcome)
      requires Valid()
      modifies this`attempts, this`lock, this`issued
      ensures Valid() && Keeps()
      ensures outcome.Done? ==>
                && source.active && a !in old(attempts)
                && attempts == old(attempts)[a := [Prepared(point, old(issued), source.generation)]]
                && lock == Some(old(issued)) && old(lock).None?
      ensures !outcome.Done? ==> attempts == old(attempts)
      ensures outcome.Done? <==> old(TakesLock(point, plan)) && plan(WritePrepared).Proceeds? && a !in old(attempts)
      ensures !outcome.Done? ==>
                lock == if old(TakesLock(point, plan)) && (plan(WritePrepared).Crashes? || !plan(ReleaseLock).Proceeds?)
                        then Some(old(issued)) else old(lock)
      ensures NeverCrashes(plan) ==> !outcome.Crashed?
    {
      if plan(ReadPoint) != Proceeds || point !in points {
        return Stopped(plan(ReadPoint));
      }
      if plan(ReadSource) != Proceeds || !source.active {
        return Stopped(plan(ReadSource));
      }
      var locked, token := AcquireJobLock(plan);
      if locked != Done {
        return locked;
      }
      if plan(WritePrepared) != Proceeds || a in attempts {
        if plan(WritePrepared).Crashes? {
          return Crashed;
        }
        var released := ReleaseJobLock(token, plan);
        return if released.Crashed? then Crashed else Failed;
      }
      PreparingIsGood(View(), a, Prepared(point, token, source.generation));
      attempts := attempts[a := [Prepared(point, token, source.generation)]];
      return Done;
    }
  
    /* ---- Restoring the database ---- */

    /** Only attempt `a` and its target differ. */
    twostate predicate OnlyTouches(a: AttemptId)
      reads this
    {
      && attempts.Keys == old(attempts).Keys
      && (forall b | b in attempts && b != a :: attempts[b] == old(attempts[b]))
      && (forall b | b != a :: b in targets <==> b in old(targets))
      && (forall b | b in targets && b != a :: targets[b] == old(targets[b]))
    }

    /** Fences the source if it is not fenced yet, and records so. */
    method RecordFence(a: AttemptId, plan: Plan) returns (outcome: Outcome)
      requires Valid() && a in attempts && |attempts[a]| == 1 && !Finished(attempts[a])
      modifies this`source, this`attempts
      ensures Valid()
      ensures source == old(source) || source == old(source).(active := false)
      ensures outcome.Done? ==> !source.active && attempts == old(attempts)[a := old(attempts[a]) + [SourceFenced(source.generation)]]
      ensures outcome.Done? <==>
                && plan(ReadSource).Proceeds? && old(source).generation == old(attempts[a])[0].generation
                && (old(source).active ==> plan(FenceSource).Proceeds?) && plan(RecordSourceFenced).Proceeds?
      ensures !outcome.Done? ==> attempts == old(attempts)
      ensures !outcome.Done? && old(source).active ==>
                (!source.active <==>
                   && plan(ReadSource).Proceeds? && old(source).generation == old(attempts[a])[0].generation
                   && plan(FenceSource).Proceeds? && !plan(RecordSourceFenced).Proceeds?)
      ensures NeverCrashes(plan) ==> !outcome.Crashed?
    {
      assert FactsOf(View(), a);
      if plan(ReadSource) != Proceeds || source.generation != attempts[a][0].generation {
        return Stopped(plan(ReadSource));
      }
      if source.active {
        if plan(FenceSource) != Proceeds {
          return Stopped(plan(FenceSource));
        }
        FencingIsGood(View());
        source := source.(active := false);
      }
      if plan(RecordSourceFenced) != Proceeds {
        return Stopped(plan(RecordSourceFenced));
      }
      Append(a, SourceFenced(source.generation));
      return Done;
    }

    method SetTarget(a: AttemptId, d: Database)
      requires Valid() && a in attempts && HasFenced(attempts[a])
      requires |attempts[a]| > 2 ==> d.Restored? && Sequence(attempts[a]) && TargetFacts(attempts[a], d.control)
      modifies this`targets
      ensures Valid() && targets == old(targets)[a := d]
    {
      ReplacingTargetIsGood(View(), a, d);
      targets := targets[a := d];
    }

    method DropTarget(a: AttemptId)
      requires Valid() && a in attempts && |attempts[a]| <= 2
      modifies this`targets
      ensures Valid() && targets == old(targets) - {a}
    {
      DroppingTargetIsGood(View(), a);
      targets := targets - {a};
    }

    /** Restores the dump into the created target, fences it, checks it and records it. `partial` is
        what a restore that does not finish leaves there. */
    method FillTarget(a: AttemptId, plan: Plan, partial: Database) returns (outcome: Outcome)
      requires Valid() && a in attempts && |attempts[a]| == 2 && HasFenced(attempts[a]) && a in targets
      modifies this`targets, this`attempts
      ensures Valid() && OnlyTouches(a)
      ensures outcome.Done? ==>
                && RestoredFrom(View(), a, points)
                && attempts == old(attempts)[a := old(attempts[a]) + [DatabaseRestored(old(attempts[a])[0].generation)]]
      ensures !outcome.Done? ==> attempts == old(attempts) && a in targets
      ensures outcome.Done? <==> FromLineage(old(attempts[a])[0], points) && Fills(plan)
      ensures NeverCrashes(plan) ==> !outcome.Crashed?
    {
      assert FactsOf(View(), a);
      var first := attempts[a][0];
      if first.point !in points {
        return Failed;
      }
      if plan(RestoreDump) != Proceeds {
        SetTarget(a, partial);
        return Stopped(plan(RestoreDump));
      }
      var restored := points[first.point];
      SetTarget(a, Restored(restored));
      if plan(ReadTarget) != Proceeds || !restored.active || restored.generation != first.generation {
        return Stopped(plan(ReadTarget));
      }
      if plan(FenceTarget) != Proceeds {
        return Stopped(plan(FenceTarget));
      }
      SetTarget(a, Restored(restored.(active := false)));
      if plan(CheckTarget) != Proceeds {
        return Stopped(plan(CheckTarget));
      }
      if plan(RecordRestored) != Proceeds {
        return Stopped(plan(RecordRestored));
      }
      assert FactsOf(View(), a);
      Append(a, DatabaseRestored(restored.generation));
      assert FactsOf(View(), a);
      return Done;
    }

    /** Creates the target afresh and fills it; a failure after its creation drops it again, if it can. */
    method RestoreTarget(a: AttemptId, plan: Plan, partial: Database) returns (outcome: Outcome)
      requires Valid() && a in attempts && |attempts[a]| == 2 && HasFenced(attempts[a])
      modifies this`targets, this`attempts
      ensures Valid() && OnlyTouches(a)
      ensures outcome.Done? ==>
                && RestoredFrom(View(), a, points)
                && attempts == old(attempts)[a := old(attempts[a]) + [DatabaseRestored(old(attempts[a])[0].generation)]]
      ensures !outcome.Done? ==> attempts == old(attempts)
      ensures outcome.Done? <==>
                && (a in old(targets) ==> plan(DropOldTarget).Proceeds?) && plan(CreateTarget).Proceeds?
                && FromLineage(old(attempts[a])[0], points) && Fills(plan)
      ensures outcome.Failed? && (a in old(targets) ==> plan(DropOldTarget).Proceeds?) && plan(DropFailedTarget).Proceeds? ==> a !in targets
      ensures NeverCrashes(plan) ==> !outcome.Crashed?
    {
      if a in targets {
        if plan(DropOldTarget) != Proceeds {
          return Stopped(plan(DropOldTarget));
        }
        DropTarget(a);
      }
      if plan(CreateTarget) != Proceeds {
        return Stopped(plan(CreateTarget));
      }
      SetTarget(a, Blank);
      outcome := FillTarget(a, plan, partial);
      if outcome.Failed? {
        if plan(DropFailedTarget).Crashes? {
          return Crashed;
        }
        if plan(DropFailedTarget).Proceeds? {
          DropTarget(a);
        }
      }
    }

    /** The source is the prepared one, and nothing keeps it from being fenced and recorded so. */
    predicate Fences(a: AttemptId, plan: Plan)
      requires a in attempts && attempts[a] != [] && attempts[a][0].Prepared?
      reads this
    {
      && plan(ReadSource).Proceeds? && source.generation == attempts[a][0].generation
      && (source.active ==> plan(FenceSource).Proceeds?) && plan(RecordSourceFenced).Proceeds?
    }

    /** Makes sure that the source is fenced and that this is recorded. */
    method EnsureFenced(a: AttemptId, plan: Plan) returns (outcome: Outcome)
      requires Valid() && a in attempts && 1 <= |attempts[a]| <= 2 && !Finished(attempts[a])
      modifies this`source, this`attempts
      ensures Valid() && OnlyTouches(a) && old(attempts[a]) <= attempts[a] && source.generation == old(source).generation
      ensures |attempts[a]| <= 2 && !Finished(attempts[a])
      ensures outcome.Done? ==> |attempts[a]| == 2 && HasFenced(attempts[a])
      ensures outcome.Done? <==> |old(attempts[a])| == 2 || old(Fences(a, plan))
      ensures |old(attempts[a])| == 1 && !plan(RecordSourceFenced).Proceeds? ==> attempts == old(attempts)
      ensures |attempts[a]| == 1 && old(source).active ==>
                (!source.active <==>
                  && source.generation == attempts[a][0].generation
                  && plan(ReadSource).Proceeds? && plan(FenceSource).Proceeds? && !plan(RecordSourceFenced).Proceeds?)
      ensures NeverCrashes(plan) ==> !outcome.Crashed?
    {
      assert FactsOf(View(), a);
      if |attempts[a]| == 2 {
        return Done;
      }
      outcome := RecordFence(a, plan);
    }

    /** The part of `restoreDatabase` that changes anything. */
    method ResumeRestore(a: AttemptId, plan: Plan, partial: Database) returns (outcome: Outcome)
      requires Valid() && a in attempts && 1 <= |attempts[a]| <= 2 && !Finished(attempts[a])
      modifies this`source, this`targets, this`attempts
      ensures Valid() && OnlyTouches(a) && old(attempts[a]) <= attempts[a] && source.generation == old(source).generation
      ensures outcome.Done? ==> RestoredFrom(View(), a, points)
      ensures !outcome.Done? ==> |attempts[a]| <= 2 && !Finished(attempts[a])
      ensures outcome.Done? <==>
                && (|old(attempts[a])| == 2 || old(Fences(a, plan)))
                && (a in old(targets) ==> plan(DropOldTarget).Proceeds?) && plan(CreateTarget).Proceeds?
                && FromLineage(old(attempts[a])[0], points) && Fills(plan)
      ensures |old(attempts[a])| == 1 && !plan(RecordSourceFenced).Proceeds? ==> attempts == old(attempts)
      ensures |attempts[a]| == 1 && old(source).active ==>
                (!source.active <==>
                  && source.generation == attempts[a][0].generation
                  && plan(ReadSource).Proceeds? && plan(FenceSource).Proceeds? && !plan(RecordSourceFenced).Proceeds?)
      ensures NeverCrashes(plan) ==> !outcome.Crashed?
    {
      outcome := EnsureFenced(a, plan);
      if outcome.Done? {
        outcome := RestoreTarget(a, plan, partial);
      }
    }

    /** Nothing keeps an unfinished attempt from being fenced, created and filled. */
    ghost predicate Restores(a: AttemptId, plan: Plan)
      requires a in attempts && Valid()
      reads this
    {
      assert FactsOf(View(), a);
      && !Finished(attempts[a]) && plan(CheckLock).Proceeds?
      && (|attempts[a]| == 2 || Fences(a, plan))
      && (a in targets ==> plan(DropOldTarget).Proceeds?) && plan(CreateTarget).Proceeds?
      && FromLineage(attempts[a][0], points) && Fills(plan)
    }

    /** However often it fails or crashes, a later run that succeeds ends in the one restored state
        that depends only on the prepared record and the recovery point; and one that nothing stops
        succeeds. */
    method RestoreDatabase(a: AttemptId, plan: Plan, partial: Database) returns (outcome: Outcome)
      requires Valid()
      modifies this`source, this`targets, this`attempts
      ensures Valid() && Keeps() && OnlyTouches(a) && source.generation == old(source).generation
      ensures outcome.Done? ==> a in attempts && (if |old(attempts[a])| > 2 then View() == old(View()) else RestoredFrom(View(), a, points))
      ensures old(Restorable(View(), a, points)) ==> outcome.Done? || Restorable(View(), a, points)
      ensures old(Restorable(View(), a, points)) && Smooth(plan) ==> outcome.Done?
      ensures outcome.Done? <==> a in old(attempts) && plan(ReadAttempt).Proceeds? && (|old(attempts[a])| > 2 || old(Restores(a, plan)))
      ensures a in attempts && |old(attempts[a])| == 1 && !plan(RecordSourceFenced).Proceeds? ==> attempts == old(attempts)
      ensures a in attempts && |attempts[a]| == 1 && old(source).active ==>
                (!source.active <==> FencesWithoutRecord(plan) && source.generation == attempts[a][0].generation)
      ensures NeverCrashes(plan) ==> !outcome.Crashed?
    {
      if plan(ReadAttempt) != Proceeds || a !in attempts {
        return Stopped(plan(ReadAttempt));
      }
      assert FactsOf(View(), a);
      if |attempts[a]| > 2 {
        return Done;
      }
      if Finished(attempts[a]) {
        return Failed;
      }
      if plan(CheckLock) != Proceeds || lock != Some(attempts[a][0].token) {
        return Stopped(plan(CheckLock));
      }
      outcome := ResumeRestore(a, plan, partial);
    }
  
    /* ---- Attachments, verification and approval ---- */

    predicate TargetIsFenced(a: AttemptId)
      requires a in attempts && |attempts[a]| > 2 && attempts[a][2].DatabaseRestored?
      reads this
    {
      a in targets && targets[a].Restored? && !targets[a].control.active && targets[a].control.generation == attempts[a][2].generation
    }

    method RestoreAttachments(a: AttemptId, plan: Plan) returns (outcome: Outcome)
      requires Valid()
      modifies this`attempts
      ensures Valid() && Keeps() && OnlyTouches(a)
      ensures outcome.Done? ==> a in attempts && |attempts[a]| == (if |old(attempts[a])| == 3 then 4 else |old(attempts[a])|) >= 4
      ensures !outcome.Done? ==> attempts == old(attempts)
      ensures a in attempts && |attempts[a]| < 7 && outcome.Done? ==> TargetIsFenced(a)
      ensures outcome.Done? <==>
                && a in old(attempts) && plan(ReadAttempt).Proceeds?
                && (|old(attempts[a])| == 7
                    || (|old(attempts[a])| >= 3 && plan(CheckLock).Proceeds? && plan(ReadTarget).Proceeds? && TargetIsFenced(a)
                        && plan(CopyAttachments).Proceeds? && (|old(attempts[a])| > 3 || plan(RecordAttachments).Proceeds?)))
      ensures a in attempts && |attempts[a]| > |old(attempts[a])| ==> attempts[a] == old(attempts[a]) + [AttachmentsRestored]
      ensures NeverCrashes(plan) ==> !outcome.Crashed?
    {
      if plan(ReadAttempt) != Proceeds || a !in attempts {
        return Stopped(plan(ReadAttempt));
      }
      assert FactsOf(View(), a);
      if |attempts[a]| == 7 {
        return Done;
      }
      if |attempts[a]| < 3 {
        return Failed;
      }
      if plan(CheckLock) != Proceeds || lock != Some(attempts[a][0].token) {
        return Stopped(plan(CheckLock));
      }
      if plan(ReadTarget) != Proceeds || !TargetIsFenced(a) {
        return Stopped(plan(ReadTarget));
      }
      if plan(CopyAttachments) != Proceeds {
        return Stopped(plan(CopyAttachments));
      }
      if |attempts[a]| > 3 {
        return Done;
      }
      if plan(RecordAttachments) != Proceeds {
        return Stopped(plan(RecordAttachments));
      }
      Append(a, AttachmentsRestored);
      return Done;
    }

    /** Both authorities must be fenced where the records say, and the target's own checks must pass. */
    method VerifyAttemptState(a: AttemptId, plan: Plan) returns (outcome: Outcome)
      requires Valid() && a in attempts && |attempts[a]| > 3
      ensures outcome.Done? ==> !source.active && source.generation == attempts[a][0].generation
      ensures outcome.Done? <==>
                plan(ReadTarget).Proceeds? && plan(VerifySource).Proceeds? && plan(VerifyTarget).Proceeds? && TargetIsFenced(a)
      ensures NeverCrashes(plan) ==> !outcome.Crashed?
    {
      assert FactsOf(View(), a);
      if plan(ReadTarget) != Proceeds || !TargetIsFenced(a) {
        return Stopped(plan(ReadTarget));
      }
      if plan(VerifySource) != Proceeds || source.active || source.generation != attempts[a][0].generation {
        return Stopped(plan(VerifySource));
      }
      if plan(VerifyTarget) != Proceeds {
        return Stopped(plan(VerifyTarget));
      }
      return Done;
    }

    method Verify(a: AttemptId, plan: Plan) returns (outcome: Outcome)
      requires Valid()
      modifies this`attempts
      ensures Valid() && Keeps() && OnlyTouches(a)
      ensures outcome.Done? ==> a in attempts && |attempts[a]| == (if |old(attempts[a])| == 4 then 5 else |old(attempts[a])|) >= 5
      ensures !outcome.Done? ==> attempts == old(attempts)
      ensures a in attempts && |old(attempts[a])| == 4 && outcome.Done? ==> TargetIsFenced(a) && !source.active
      ensures outcome.Done? <==>
                && a in old(attempts) && plan(ReadAttempt).Proceeds?
                && (|old(attempts[a])| > 4
                    || (|old(attempts[a])| == 4 && plan(CheckLock).Proceeds? && plan(ReadTarget).Proceeds? && TargetIsFenced(a)
                        && plan(VerifySource).Proceeds? && plan(VerifyTarget).Proceeds? && plan(RecordVerified).Proceeds?))
      ensures a in attempts && |attempts[a]| > |old(attempts[a])| ==> attempts[a] == old(attempts[a]) + [Record.Verified]
      ensures NeverCrashes(plan) ==> !outcome.Crashed?
    {
      if plan(ReadAttempt) != Proceeds || a !in attempts {
        return Stopped(plan(ReadAttempt));
      }
      assert FactsOf(View(), a);
      if |attempts[a]| > 4 {
        return Done;
      }
      if |attempts[a]| != 4 {
        return Failed;
      }
      if plan(CheckLock) != Proceeds || lock != Some(attempts[a][0].token) {
        return Stopped(plan(CheckLock));
      }
      var verified := VerifyAttemptState(a, plan);
      if verified != Done {
        return verified;
      }
      if plan(RecordVerified) != Proceeds {
        return Stopped(plan(RecordVerified));
      }
      Append(a, Record.Verified);
      return Done;
    }

    method Approve(a: AttemptId, point: PointId, plan: Plan) returns (outcome: Outcome)
      requires Valid()
      modifies this`attempts
      ensures Valid() && Keeps() && OnlyTouches(a)
      ensures outcome.Done? ==> a in attempts && |attempts[a]| == (if |old(attempts[a])| == 5 then 6 else |old(attempts[a])|) >= 6
      ensures !outcome.Done? ==> attempts == old(attempts)
      ensures outcome.Done? && |old(attempts[a])| == 5 ==> attempts[a][0].point == point
      ensures outcome.Done? <==>
                && a in old(attempts) && plan(ReadAttempt).Proceeds?
                && (|old(attempts[a])| > 5
                    || (|old(attempts[a])| == 5 && PointOf(old(attempts[a])) == Some(point)
                        && plan(CheckLock).Proceeds? && plan(RecordApproved).Proceeds?))
      ensures a in attempts && |attempts[a]| > |old(attempts[a])| ==> attempts[a] == old(attempts[a]) + [Record.Approved(point)]
      ensures NeverCrashes(plan) ==> !outcome.Crashed?
    {
      if plan(ReadAttempt) != Proceeds || a !in attempts {
        return Stopped(plan(ReadAttempt));
      }
      assert FactsOf(View(), a);
      if |attempts[a]| > 5 {
        return Done;
      }
      if |attempts[a]| != 5 || point != attempts[a][0].point {
        return Failed;
      }
      if plan(CheckLock) != Proceeds || lock != Some(attempts[a][0].token) {
        return Stopped(plan(CheckLock));
      }
      if plan(RecordApproved) != Proceeds {
        return Stopped(plan(RecordApproved));
      }
      Append(a, Record.Approved(point));
      return Done;
    }

    /* ---- Activation ---- */

    /** The effects of an activation, from the target's control row to the released lock. */
    method ActivateApproved(a: AttemptId, minted: Generation, plan: Plan) returns (outcome: Outcome)
      requires Valid() && a in attempts && |attempts[a]| == 6 && TargetIsFenced(a)
      modifies this`targets, this`attempts, this`lock
      ensures Valid() && OnlyTouches(a) && a in targets
      ensures outcome.Done? ==> |attempts[a]| == 7 && IsActive(targets[a]) && lock.None?
      ensures attempts[a] == old(attempts[a]) || attempts[a] == old(attempts[a]) + [Activated(attempts[a][0].generation, minted)]
      ensures outcome.Done? <==>
                && minted != attempts[a][0].generation && plan(ActivateTarget).Proceeds? && plan(ReadSourceAgain).Proceeds?
                && plan(RecordActivated).Proceeds? && plan(ReleaseLock).Proceeds?
      ensures minted != attempts[a][0].generation ==>
                (Stranded(View(), a) <==>
                  plan(ActivateTarget).Proceeds? && !(plan(ReadSourceAgain).Proceeds? && plan(RecordActivated).Proceeds?))
      ensures NeverCrashes(plan) ==> !outcome.Crashed?
    {
      assert FactsOf(View(), a);
      var token := attempts[a][0].token;
      if !targets[a].control.active {
        if plan(ActivateTarget) != Proceeds || minted == attempts[a][2].generation {
          return Stopped(plan(ActivateTarget));
        }
        SetTarget(a, Restored(Control(true, minted, true)));
      } else {
        // the branch meant to resume an activation: the verification before it has just refused that
        assert false;
      }
      if plan(ReadSourceAgain) != Proceeds {
        return Stopped(plan(ReadSourceAgain));
      }
      if plan(RecordActivated) != Proceeds {
        return Stopped(plan(RecordActivated));
      }
      Append(a, Activated(attempts[a][2].generation, minted));
      OthersHoldOtherTokens(View(), a);
      outcome := ReleaseJobLock(token, plan);
    }

    /** Activates the target of an approved attempt. Once the target is active and that is not
        recorded, no later activation gets past its own check that the target is fenced. */
    method Activate(a: AttemptId, point: PointId, minted: Generation, plan: Plan) returns (outcome: Outcome)
      requires Valid()
      modifies this`targets, this`attempts, this`lock
      ensures Valid() && Keeps() && OnlyTouches(a)
      ensures outcome.Done? ==>
                && a in attempts && |attempts[a]| == 7 && a in targets && IsActive(targets[a]) && !source.active && lock.None?
                && (|old(attempts[a])| == 6 ==> attempts[a] == old(attempts[a]) + [Activated(attempts[a][0].generation, minted)])
      ensures old(Stranded(View(), a)) ==> !outcome.Done? && View() == old(View())
      ensures Smooth(plan) && old(ReadyToActivate(a, point, minted)) ==> (outcome.Done? <==> !old(Stranded(View(), a)))
      ensures a in old(attempts) && |old(attempts[a])| <= 6 ==>
                (outcome.Done? <==>
                  && old(ReadyToActivate(a, point, minted)) && !old(Stranded(View(), a))
                  && Activates(plan) && plan(ReadSourceAgain).Proceeds? && plan(RecordActivated).Proceeds? && plan(ReleaseLock).Proceeds?)
      ensures a in old(attempts) && |old(attempts[a])| == 7 ==>
                (outcome.Done? <==>
                  plan(ReadAttempt).Proceeds? && plan(ReleaseLock).Proceeds? && (old(lock).None? || old(lock) == Some(TokenOf(old(attempts[a])))))
      ensures old(ReadyToActivate(a, point, minted) && !Stranded(View(), a)) ==> (Stranded(View(), a) <==> ActivatesWithoutRecord(plan))
      ensures NeverCrashes(plan) ==> !outcome.Crashed?
    {
      if plan(ReadAttempt) != Proceeds || a !in attempts {
        return Stopped(plan(ReadAttempt));
      }
      assert FactsOf(View(), a);
      if |attempts[a]| == 7 {
        OthersHoldOtherTokens(View(), a);
        outcome := ReleaseJobLock(attempts[a][0].token, plan);
        return;
      }
      if |attempts[a]| != 6 || point != attempts[a][0].point {
        return Failed;
      }
      if plan(CheckLock) != Proceeds || lock != Some(attempts[a][0].token) {
        return Stopped(plan(CheckLock));
      }
      var verified := VerifyAttemptState(a, plan);
      if verified != Done {
        return verified;
      }
      outcome := ActivateApproved(a, minted, plan);
    }

    predicate ReadyToActivate(a: AttemptId, point: PointId, minted: Generation)
      reads this
    {
      a in attempts && |attempts[a]| == 6 && attempts[a][0].Prepared? && attempts[a][0].point == point && minted != attempts[a][0].generation
    }

    /* ---- Aborting ---- */

    /** Gives up an attempt that has recorded nothing but its preparation. The source is left as it
        is, which is fenced if an unrecorded fence came before. */
    method AbortPrepared(a: AttemptId, plan: Plan) returns (outcome: Outcome)
      requires Valid()
      modifies this`attempts, this`lock
      ensures Valid() && Keeps() && OnlyTouches(a)
      ensures outcome.Done? ==> a in attempts && IsAborted(attempts[a]) && a !in targets
      ensures outcome.Done? && !old(a in attempts && IsAborted(attempts[a])) ==>
                |old(attempts[a])| == 1 && attempts[a] == old(attempts[a]) + [Aborted] && lock.None?
      ensures a in old(attempts) && !IsAborted(old(attempts[a])) ==>
                (outcome.Done? <==>
                  && plan(ReadAttempt).Proceeds? && |old(attempts[a])| == 1 && plan(CheckLock).Proceeds? && plan(FindTarget).Proceeds?
                  && a !in targets && plan(RecordAborted).Proceeds? && plan(ReleaseLock).Proceeds?)
      ensures a in old(attempts) && IsAborted(old(attempts[a])) ==>
                (outcome.Done? <==>
                  plan(ReadAttempt).Proceeds? && plan(ReleaseLock).Proceeds? && (old(lock).None? || old(lock) == Some(TokenOf(old(attempts[a])))))
      ensures a !in old(attempts) ==> !outcome.Done?
      ensures NeverCrashes(plan) ==> !outcome.Crashed?
    {
      if plan(ReadAttempt) != Proceeds || a !in attempts {
        return Stopped(plan(ReadAttempt));
      }
      assert FactsOf(View(), a);
      var token := attempts[a][0].token;
      if IsAborted(attempts[a]) {
        OthersHoldOtherTokens(View(), a);
        outcome := ReleaseJobLock(token, plan);
        return;
      }
      if |attempts[a]| != 1 {
        return Failed;
      }
      if plan(CheckLock) != Proceeds || lock != Some(token) {
        return Stopped(plan(CheckLock));
      }
      if plan(FindTarget) != Proceeds || a in targets {
        return Stopped(plan(FindTarget));
      }
      if plan(RecordAborted) != Proceeds {
        return Stopped(plan(RecordAborted));
      }
      Append(a, Aborted);
      OthersHoldOtherTokens(View(), a);
      outcome := ReleaseJobLock(token, plan);
    }
  }

  /** What the records of an attempt say is true of the databases. */
  lemma RecordsTellTheTruth(w: World, a: AttemptId)
    requires Good(w) && a in w.attempts
    ensures var records := w.attempts[a];
            && records != [] && records[0].Prepared?
            && (HasFenced(records) ==> w.source == Control(false, records[0].generation, w.source.cutoff))
            && (|records| > 2 ==> a in w.targets && w.targets[a].Restored?)
            && (2 < |records| < 6 ==> w.targets[a].control == Control(false, records[0].generation, w.targets[a].control.cutoff))
            && (|records| == 7 ==> IsActive(w.targets[a]) && w.targets[a].control.generation == records[6].generation != records[0].generation)
            && (a in w.targets ==> HasFenced(records))
  {
    assert FactsOf(w, a);
  }

  lemma OthersHoldOtherTokens(w: World, a: AttemptId)
    requires Good(w) && a in w.attempts && Finished(w.attempts[a])
    ensures forall b | b in w.attempts && TokenOf(w.attempts[b]) == TokenOf(w.attempts[a]) :: Finished(w.attempts[b])
  {
  }

  /** Nothing keeps a created target from being restored, fenced, checked and recorded. */
  predicate Fills(plan: Plan) {
    && plan(RestoreDump).Proceeds? && plan(ReadTarget).Proceeds? && plan(FenceTarget).Proceeds?
    && plan(CheckTarget).Proceeds? && plan(RecordRestored).Proceeds?
  }

  /** Nothing keeps an approved attempt's target from being activated. */
  predicate Activates(plan: Plan) {
    && plan(ReadAttempt).Proceeds? && plan(CheckLock).Proceeds? && plan(ReadTarget).Proceeds?
    && plan(VerifySource).Proceeds? && plan(VerifyTarget).Proceeds? && plan(ActivateTarget).Proceeds?
  }

  function PointOf(records: seq<Record>): Option<PointId> {
    if records != [] && records[0].Prepared? then Some(records[0].point) else None
  }

  /** The plan activates the target and stops before that is recorded. */
  predicate ActivatesWithoutRecord(plan: Plan) {
    && plan(ReadAttempt).Proceeds? && plan(CheckLock).Proceeds? && plan(ReadTarget).Proceeds?
    && plan(VerifySource).Proceeds? && plan(VerifyTarget).Proceeds? && plan(ActivateTarget).Proceeds?
    && !(plan(ReadSourceAgain).Proceeds? && plan(RecordActivated).Proceeds?)
  }

  /** The plan fences the source and stops before that is recorded. */
  predicate FencesWithoutRecord(plan: Plan) {
    && plan(ReadAttempt).Proceeds? && plan(CheckLock).Proceeds? && plan(ReadSource).Proceeds?
    && plan(FenceSource).Proceeds? && !plan(RecordSourceFenced).Proceeds?
  }

  lemma LockingIsGood(w: World)
    requires Good(w) && w.lock.None?
    ensures Good(w.(lock := Some(w.issued), issued := w.issued + 1))
    ensures forall b | b in w.attempts :: TokenOf(w.attempts[b]) < w.issued && Finished(w.attempts[b])
  {
    var u := w.(lock := Some(w.issued), issued := w.issued + 1);
    forall a | a in w.attempts
      ensures FactsOf(u, a) && TokenOf(w.attempts[a]) < w.issued && Finished(w.attempts[a])
    {
      assert FactsOf(w, a);
    }
  }

  /* ---- Two runs that end where their documentation does not want them ---- */

  const LIVE := Control(true, 1, false)

  function CrashAt(stop: Site): Plan { (site: Site) => if site == stop then Crashes else Proceeds }

  const SMOOTH: Plan := (site: Site) => Proceeds

  method PreparedSystem() returns (system: RecoverySystem)
    ensures fresh(system) && system.Valid() && system.points == map[0 := LIVE]
    ensures system.source == LIVE && system.attempts == map[0 := [Prepared(0, 0, 1)]] && system.lock == Some(0)
  {
    system := new RecoverySystem(LIVE, map[0 := LIVE]);
    var prepared := system.Prepare(0, 0, SMOOTH);
  }

  /** Any prepared attempt whose source is still active can be left like this. */
  method FenceUnrecorded(system: RecoverySystem, a: AttemptId)
    requires system.Valid() && a in system.attempts && |system.attempts[a]| == 1 && system.attempts[a][0].Prepared?
    requires system.source.active && system.source.generation == system.attempts[a][0].generation
    modifies system
    ensures system.Valid() && a in system.attempts && |system.attempts[a]| == 1 && !system.source.active
  {
    var crash := CrashAt(RecordSourceFenced);
    assert FencesWithoutRecord(crash);
    var crashed := system.RestoreDatabase(a, crash, Blank);
  }

  /** An attempt can end aborted with its source fenced: the fence was made, and the run stopped before
      recording it. */
  method AbortAfterUnrecordedFence() returns (system: RecoverySystem)
    ensures fresh(system) && 0 in system.attempts && IsAborted(system.attempts[0]) && !system.source.active
  {
    system := PreparedSystem();
    FenceUnrecorded(system, 0);
    var aborted := system.AbortPrepared(0, SMOOTH);
  }

  /** The attempt of the system has come so far. */
  ghost predicate Reached(system: RecoverySystem, n: nat)
    reads system
  {
    && system.Valid() && 0 in system.attempts && |system.attempts[0]| == n
    && system.attempts[0][..1] == [Prepared(0, 0, 1)]
  }

  method RestoredSystem() returns (system: RecoverySystem)
    ensures fresh(system) && Reached(system, 3)
  {
    system := PreparedSystem();
    var outcome := system.RestoreDatabase(0, SMOOTH, Blank);
  }

  method AttachedSystem() returns (system: RecoverySystem)
    ensures fresh(system) && Reached(system, 4)
  {
    system := RestoredSystem();
    var outcome := system.RestoreAttachments(0, SMOOTH);
  }

  method VerifiedSystem() returns (system: RecoverySystem)
    ensures fresh(system) && Reached(system, 5)
  {
    system := AttachedSystem();
    var outcome := system.Verify(0, SMOOTH);
  }

  method ApprovedSystem() returns (system: RecoverySystem)
    ensures fresh(system) && Reached(system, 6) && !Stranded(system.View(), 0)
  {
    system := VerifiedSystem();
    assert system.attempts[0][0] == system.attempts[0][..1][0];
    var outcome := system.Approve(0, 0, SMOOTH);
  }

  /** Any approved attempt can be left like this. */
  method Strand(system: RecoverySystem, a: AttemptId, point: PointId, minted: Generation)
    requires system.Valid() && system.ReadyToActivate(a, point, minted) && !Stranded(system.View(), a)
    modifies system
    ensures system.Valid() && Stranded(system.View(), a)
  {
    var crash := CrashAt(RecordActivated);
    assert ActivatesWithoutRecord(crash);
    var outcome := system.Activate(a, point, minted, crash);
  }

  /** A crash between the activation of the target and the record of it leaves an attempt that no
      activation finishes, however smoothly it runs. */
  method ActivateAfterUnrecordedActivation() returns (system: RecoverySystem, again: Outcome)
    ensures fresh(system) && Stranded(system.View(), 0) && again != Done
  {
    system := ApprovedSystem();
    assert system.attempts[0][0] == system.attempts[0][..1][0];
    Strand(system, 0, 0, 2);
    again := system.Activate(0, 0, 3, SMOOTH);
  }
}
