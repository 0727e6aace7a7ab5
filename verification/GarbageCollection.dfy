/**
Garbage collection of a backup store against the backups that run meanwhile, as interleaved atomic steps.

A backup touches each chunk it finds and writes each chunk it does not, checks that they are all there, then writes its
manifest; a copy from another store does the same without the check. One collection at a time marks the chunks of the
listed backups, then looks at every chunk: stat, rename to `.sweep`, stat again, then unlink or rename back. Access
times are the whole protocol, and two things lower them: a chunk written aside and renamed into place carries the time
its temporary file was made, and a `.sweep` file renamed back replaces a newer copy.
*/
module GarbageCollection {
  import opened StoreSettings

  type Digest = nat
  type BackupId = nat

  /** The longest time from the making of a chunk's temporary file to its rename, and from a chunk's first stat in a
      sweep to its rename back; and how long before the grace period ends, counted from its first touch, a backup has to
      write its manifest. */
  datatype Windows = Windows(write: real, sweep: real, margin: real)

  predicate Sane(w: Windows)
  {
    0.0 <= w.write && 0.0 <= w.sweep && w.write + w.sweep <= GC_GRACE_S
  }

  /** The margin covers the two windows. */
  predicate Ample(w: Windows)
  {
    Sane(w) && w.write + w.sweep <= w.margin
  }

  /** A backup reads the disks, then checks its chunks before it writes its manifest; a copy does not check. */
  datatype Phase = Reading | Checked | Copying

  /** A backup under way: the instant of its first touch, the chunks it holds, the ones it found missing and when. */
  datatype Job = Job(since: real, used: set<Digest>, missing: map<Digest, real>, phase: Phase)

  /** A backup whose manifest is written, `at` the instant of the manifest. */
  datatype Backup = Backup(digests: set<Digest>, since: real, at: real)

  datatype Collector =
    | Idle
    | Marking(start: real, marked: set<Digest>)
    | Sweeping(start: real)
    | Stated(start: real, d: Digest, seen: real)
    | Renamed(start: real, d: Digest, seen: real, atime: real)

  /** `atimes`: the chunks at their own path, with their access times. `left`: `.sweep` files of a collection that
      died. */
  datatype State = State(
    now: real,
    atimes: map<Digest, real>,
    jobs: map<BackupId, Job>,
    backups: map<BackupId, Backup>,
    gc: Collector,
    left: map<Digest, real>)

  datatype Step =
    | Tick(dt: real)
    | Begin(b: BackupId, copies: bool)
    | Touch(b: BackupId, d: Digest)
    | Miss(b: BackupId, d: Digest)
    | Write(b: BackupId, d: Digest, made: real)
    | Check(b: BackupId)
    | Commit(b: BackupId)
    | Fail(b: BackupId)
    | Delete(b: BackupId)
    | Start
    | Mark(d: Digest)
    | Marked
    | Stop
    | Stat(d: Digest)
    | Rename
    | PutBack
    | Unlink
    | Recover(d: Digest)
    | Crash

  const NEW_STORE := State(0.0, map[], map[], map[], Idle, map[])

  function Cutoff(gc: Collector): real
    requires !gc.Idle?
  {
    gc.start - GC_GRACE_S
  }

  /** What a step needs. `Commit` carries the timing hypothesis: the manifest comes within the grace period of the first
      touch, less the margin. `Marked` needs every backup listed when the collection began to have been marked. */
  predicate Enabled(w: Windows, s: State, step: Step)
  {
    match step
    case Tick(dt) => 0.0 <= dt
    case Begin(b, copies) => b !in s.jobs
    case Touch(b, d) => b in s.jobs && !s.jobs[b].phase.Checked? && d in s.atimes
    case Miss(b, d) => b in s.jobs && !s.jobs[b].phase.Checked? && d !in s.atimes
    case Write(b, d, made) =>
      && b in s.jobs && !s.jobs[b].phase.Checked? && d in s.jobs[b].missing
      && s.jobs[b].missing[d] <= made <= s.now <= made + w.write
    case Check(b) => b in s.jobs && s.jobs[b].phase.Reading? && s.jobs[b].used <= s.atimes.Keys
    case Commit(b) =>
      && b in s.jobs && b !in s.backups && !s.jobs[b].phase.Reading?
      && s.now <= s.jobs[b].since + GC_GRACE_S - w.margin
    case Fail(b) => b in s.jobs
    case Delete(b) => b in s.backups
    case Start => s.gc.Idle?
    case Mark(d) => s.gc.Marking?
    case Marked =>
      && s.gc.Marking?
      && forall b | b in s.backups && s.backups[b].at < s.gc.start :: s.backups[b].digests <= s.gc.marked
    case Stop => s.gc.Marking? || s.gc.Sweeping?
    case Stat(d) => s.gc.Sweeping? && d in s.atimes && s.atimes[d] < Cutoff(s.gc)
    case Rename => s.gc.Stated?
    case PutBack => s.gc.Renamed? && s.gc.atime >= Cutoff(s.gc) && s.now <= s.gc.seen + w.sweep
    case Unlink => s.gc.Renamed? && s.gc.atime < Cutoff(s.gc)
    case Recover(d) => s.gc.Sweeping? && d in s.left
    case Crash => !s.gc.Idle?
  }

  function Apply(w: Windows, s: State, step: Step): State
    requires Enabled(w, s, step)
  {
    match step
    case Tick(dt) => s.(now := s.now + dt)
    case Begin(b, copies) => s.(jobs := s.jobs[b := Job(s.now, {}, map[], if copies then Copying else Reading)])
    case Touch(b, d) =>
      s.(atimes := s.atimes[d := s.now], jobs := s.jobs[b := s.jobs[b].(used := s.jobs[b].used + {d})])
    case Miss(b, d) =>
      s.(jobs := s.jobs[b := s.jobs[b].(missing := s.jobs[b].missing[d := s.now])])
    case Write(b, d, made) =>
      s.(atimes := s.atimes[d := made], jobs := s.jobs[b := s.jobs[b].(used := s.jobs[b].used + {d})])
    case Check(b) => s.(jobs := s.jobs[b := s.jobs[b].(phase := Checked)])
    case Commit(b) =>
      s.(backups := s.backups[b := Backup(s.jobs[b].used, s.jobs[b].since, s.now)], jobs := s.jobs - {b})
    case Fail(b) => s.(jobs := s.jobs - {b})
    case Delete(b) => s.(backups := s.backups - {b})
    case Start => s.(gc := Marking(s.now, {}))
    case Mark(d) =>
      s.(atimes := if d in s.atimes then s.atimes[d := s.now] else s.atimes,
         gc := s.gc.(marked := s.gc.marked + {d}))
    case Marked => s.(gc := Sweeping(s.gc.start))
    case Stop => s.(gc := Idle)
    case Stat(d) => s.(gc := Stated(s.gc.start, d, s.now))
    case Rename =>
      if s.gc.d in s.atimes then
        s.(atimes := s.atimes - {s.gc.d}, left := s.left - {s.gc.d},
           gc := Renamed(s.gc.start, s.gc.d, s.gc.seen, s.atimes[s.gc.d]))
      else
        s.(gc := Sweeping(s.gc.start))
    case PutBack => s.(atimes := s.atimes[s.gc.d := s.gc.atime], gc := Sweeping(s.gc.start))
    case Unlink => s.(gc := Sweeping(s.gc.start))
    case Recover(d) =>
      s.(atimes := if d in s.atimes then s.atimes else s.atimes[d := s.left[d]], left := s.left - {d})
    case Crash =>
      s.(gc := Idle, left := if s.gc.Renamed? then s.left[s.gc.d := s.gc.atime] else s.left)
  }

  /** `t` is where the steps lead from `s`, each one allowed when it is taken. */
  predicate Runs(w: Windows, s: State, steps: seq<Step>, t: State)
    decreases |steps|
  {
    if steps == [] then s == t
    else Enabled(w, s, steps[0]) && Runs(w, Apply(w, s, steps[0]), steps[1..], t)
  }

  // ---- Safety ----

  /** A chunk is at its path, or in the hands of the sweep, which will find it young and put it back. */
  predicate InReach(s: State, d: Digest)
  {
    d in s.atimes || (s.gc.Renamed? && s.gc.d == d && s.gc.atime >= Cutoff(s.gc))
  }

  /** Every chunk a committed backup names is in reach. */
  predicate Safe(s: State)
  {
    forall b, d | b in s.backups && d in s.backups[b].digests :: InReach(s, d)
  }

  /** The chunk's file, at its path, in the hands of the sweep or left over, has an access time not before `floor`, and
      the sweep that holds it will put it back. */
  predicate Held(s: State, d: Digest, floor: real)
  {
    if d in s.atimes then s.atimes[d] >= floor
    else if s.gc.Renamed? && s.gc.d == d then s.gc.atime >= floor && s.gc.atime >= Cutoff(s.gc)
    else d in s.left && s.left[d] >= floor
  }

  /** Too young for the sweep that runs, or left over by an earlier one. */
  predicate Spared(s: State, d: Digest)
    requires Sweeps(s.gc)
  {
    if d in s.atimes then s.atimes[d] >= Cutoff(s.gc)
    else if s.gc.Renamed? && s.gc.d == d then s.gc.atime >= Cutoff(s.gc)
    else d in s.left
  }

  /** The oldest access time a chunk first touched by a backup at `since` can be left with. */
  function Floor(w: Windows, since: real): real
  {
    since - w.write - w.sweep
  }

  /** A backup that can still write its manifest in time. */
  predicate InTime(w: Windows, s: State, since: real)
  {
    s.now <= since + GC_GRACE_S - w.margin
  }

  predicate JobClock(job: Job, now: real)
  {
    job.since <= now && forall d | d in job.missing :: job.since <= job.missing[d]
  }

  predicate JobsClock(s: State)
  {
    forall b | b in s.jobs :: JobClock(s.jobs[b], s.now)
  }

  predicate BackupsClock(w: Windows, s: State)
  {
    forall b | b in s.backups ::
      && s.backups[b].since <= s.backups[b].at <= s.now
      && s.backups[b].at <= s.backups[b].since + GC_GRACE_S - w.margin
  }

  predicate CollectorClock(s: State)
  {
    && (!s.gc.Idle? ==> s.gc.start <= s.now)
    && (s.gc.Stated? || s.gc.Renamed? ==> s.gc.start <= s.gc.seen <= s.now)
  }

  predicate ClockOk(w: Windows, s: State)
  {
    JobsClock(s) && BackupsClock(w, s) && CollectorClock(s)
  }

  predicate JobsHold(w: Windows, s: State)
  {
    forall b, d | b in s.jobs && d in s.jobs[b].used && InTime(w, s, s.jobs[b].since) ::
      Held(s, d, Floor(w, s.jobs[b].since))
  }

  predicate BackupsHold(w: Windows, s: State)
  {
    forall b, d | b in s.backups && d in s.backups[b].digests :: Held(s, d, Floor(w, s.backups[b].since))
  }

  /** A marked chunk stays young for the whole collection. */
  predicate MarksHold(w: Windows, s: State)
  {
    s.gc.Marking? ==> forall d | d in s.gc.marked && d in s.atimes :: s.atimes[d] >= s.gc.start - w.write
  }

  predicate Sweeps(gc: Collector)
  {
    gc.Sweeping? || gc.Stated? || gc.Renamed?
  }

  predicate Committed(s: State, d: Digest)
  {
    exists b | b in s.backups :: d in s.backups[b].digests
  }

  /** While a sweep runs, no committed chunk at its path is old enough for it. */
  predicate SweepSpares(s: State)
  {
    Sweeps(s.gc) ==> forall b, d | b in s.backups && d in s.backups[b].digests :: Spared(s, d)
  }

  /** A chunk under check is as old as it was at its stat, or was refreshed since. */
  predicate CheckedAge(w: Windows, s: State)
  {
    && (s.gc.Stated? && s.gc.d in s.atimes ==>
          s.atimes[s.gc.d] < Cutoff(s.gc) || s.atimes[s.gc.d] >= s.gc.seen - w.write)
    && (s.gc.Renamed? ==> s.gc.atime < Cutoff(s.gc) || s.gc.atime >= s.gc.seen - w.write)
  }

  predicate Invariant(w: Windows, s: State)
  {
    && ClockOk(w, s)
    && JobsHold(w, s)
    && BackupsHold(w, s)
    && MarksHold(w, s)
    && SweepSpares(s)
    && CheckedAge(w, s)
  }

  /** A leftover that a committed backup names is given its name back before it is too old. */
  predicate Timely(s: State, step: Step)
  {
    step.Recover? && s.gc.Sweeping? && step.d in s.left && step.d !in s.atimes && Committed(s, step.d) ==>
      s.left[step.d] >= Cutoff(s.gc)
  }

  /** A run that recovers the leftovers of committed backups in time. */
  predicate TimelyRuns(w: Windows, s: State, steps: seq<Step>, t: State)
    decreases |steps|
  {
    if steps == [] then s == t
    else
      && Enabled(w, s, steps[0]) && Timely(s, steps[0])
      && TimelyRuns(w, Apply(w, s, steps[0]), steps[1..], t)
  }

  /** One step cannot lose a chunk, nor lower its access time below `floor`, when `floor` is two windows old and, during
      a sweep, the chunk is younger than the cutoff. */
  lemma HeldStays(w: Windows, s: State, step: Step, d: Digest, floor: real)
    requires Ample(w) && CheckedAge(w, s) && Enabled(w, s, step)
    requires floor <= s.now - w.write - w.sweep
    requires Held(s, d, floor)
    requires Sweeps(s.gc) ==> Spared(s, d)
    ensures Held(Apply(w, s, step), d, floor)
  {
  }

  lemma StepKeepsJobs(w: Windows, s: State, step: Step)
    requires Ample(w) && Invariant(w, s) && Enabled(w, s, step)
    ensures JobsHold(w, Apply(w, s, step))
  {
    var t := Apply(w, s, step);
    forall b, d | b in t.jobs && d in t.jobs[b].used && InTime(w, t, t.jobs[b].since)
      ensures Held(t, d, Floor(w, t.jobs[b].since))
    {
      if b in s.jobs && d in s.jobs[b].used && t.jobs[b].since == s.jobs[b].since {
        assert Held(s, d, Floor(w, s.jobs[b].since));
        HeldStays(w, s, step, d, Floor(w, s.jobs[b].since));
      }
    }
  }

  lemma StepKeepsBackups(w: Windows, s: State, step: Step)
    requires Ample(w) && Invariant(w, s) && Enabled(w, s, step)
    ensures BackupsHold(w, Apply(w, s, step))
  {
    var t := Apply(w, s, step);
    forall b, d | b in t.backups && d in t.backups[b].digests
      ensures Held(t, d, Floor(w, t.backups[b].since))
    {
      if !step.Commit? || b != step.b {
        assert Held(s, d, Floor(w, s.backups[b].since));
        HeldStays(w, s, step, d, Floor(w, s.backups[b].since));
      }
    }
  }

  lemma SparedStays(w: Windows, s: State, step: Step, d: Digest)
    requires Ample(w) && CollectorClock(s) && Enabled(w, s, step) && Sweeps(s.gc) && Sweeps(Apply(w, s, step).gc)
    requires Spared(s, d) && (step == Recover(d) && d !in s.atimes ==> s.left[d] >= Cutoff(s.gc))
    ensures Spared(Apply(w, s, step), d)
  {
  }

  /** No step ages a committed chunk below the cutoff of the sweep that runs. */
  lemma StepKeepsSpares(w: Windows, s: State, step: Step)
    requires Ample(w) && Invariant(w, s) && Enabled(w, s, step) && Timely(s, step)
    ensures SweepSpares(Apply(w, s, step))
  {
    var t := Apply(w, s, step);
    if Sweeps(t.gc) {
      forall b, d | b in t.backups && d in t.backups[b].digests
        ensures Spared(t, d)
      {
        if step.Commit? && b == step.b {
          assert Held(s, d, Floor(w, s.jobs[b].since));
        } else if step.Marked? {
          assert Held(s, d, Floor(w, s.backups[b].since));
        } else {
          assert Spared(s, d) && Committed(s, d);
          SparedStays(w, s, step, d);
        }
      }
    }
  }

  lemma StepKeepsJobsClock(w: Windows, s: State, step: Step)
    requires JobsClock(s) && Enabled(w, s, step)
    ensures JobsClock(Apply(w, s, step))
  {
    var t := Apply(w, s, step);
    forall b | b in t.jobs
      ensures JobClock(t.jobs[b], t.now)
    {
      assert b in s.jobs ==> JobClock(s.jobs[b], s.now);
    }
  }

  lemma StepKeepsClock(w: Windows, s: State, step: Step)
    requires ClockOk(w, s) && Enabled(w, s, step)
    ensures ClockOk(w, Apply(w, s, step))
  {
    StepKeepsJobsClock(w, s, step);
    StepKeepsBackupsClock(w, s, step);
  }

  lemma StepKeepsBackupsClock(w: Windows, s: State, step: Step)
    requires ClockOk(w, s) && Enabled(w, s, step)
    ensures BackupsClock(w, Apply(w, s, step))
  {
    if step.Commit? {
      assert JobClock(s.jobs[step.b], s.now);
    }
  }

  lemma StepKeepsMarks(w: Windows, s: State, step: Step)
    requires Ample(w) && Invariant(w, s) && Enabled(w, s, step)
    ensures MarksHold(w, Apply(w, s, step))
  {
  }

  lemma StepKeepsAges(w: Windows, s: State, step: Step)
    requires Ample(w) && Invariant(w, s) && Enabled(w, s, step)
    ensures CheckedAge(w, Apply(w, s, step))
  {
  }

  lemma StepKeepsInvariant(w: Windows, s: State, step: Step)
    requires Ample(w) && Invariant(w, s) && Enabled(w, s, step) && Timely(s, step)
    ensures Invariant(w, Apply(w, s, step))
  {
    StepKeepsJobs(w, s, step);
    StepKeepsBackups(w, s, step);
    StepKeepsSpares(w, s, step);
    StepKeepsAges(w, s, step);
    StepKeepsClock(w, s, step);
    StepKeepsMarks(w, s, step);
  }

  lemma {:induction false} RunKeepsInvariant(w: Windows, s: State, steps: seq<Step>, t: State)
    requires Ample(w) && Invariant(w, s) && TimelyRuns(w, s, steps, t)
    ensures Invariant(w, t)
    decreases |steps|
  {
    if steps != [] {
      StepKeepsInvariant(w, s, steps[0]);
      RunKeepsInvariant(w, Apply(w, s, steps[0]), steps[1..], t);
    }
  }

  /** In every interleaving of backups, deletions and collections, whichever collections die midway, a chunk a committed
      backup names is in reach or left over for the next collection, as long as each leftover that a committed backup
      names is given its name back with an access time not before the cutoff. */
  lemma CrashesLoseNothingRecoveredInTime(w: Windows, steps: seq<Step>, t: State)
    requires Ample(w) && TimelyRuns(w, NEW_STORE, steps, t)
    ensures forall b, d | b in t.backups && d in t.backups[b].digests :: InReach(t, d) || d in t.left
  {
    RunKeepsInvariant(w, NEW_STORE, steps, t);
    forall b, d | b in t.backups && d in t.backups[b].digests
      ensures InReach(t, d) || d in t.left
    {
      assert Held(t, d, Floor(w, t.backups[b].since));
    }
  }

  /** A leftover that committed backups name is given its name back by a collection that began within the grace period,
      less the two windows, of the first touch of one of them. */
  predicate Prompt(w: Windows, s: State, step: Step)
  {
    step.Recover? && s.gc.Sweeping? && step.d in s.left && step.d !in s.atimes && Committed(s, step.d) ==>
      exists b | b in s.backups ::
        step.d in s.backups[b].digests && s.gc.start <= s.backups[b].since + GC_GRACE_S - w.write - w.sweep
  }

  predicate PromptRuns(w: Windows, s: State, steps: seq<Step>, t: State)
    decreases |steps|
  {
    if steps == [] then s == t
    else
      && Enabled(w, s, steps[0]) && Prompt(w, s, steps[0])
      && PromptRuns(w, Apply(w, s, steps[0]), steps[1..], t)
  }

  lemma PromptIsTimely(w: Windows, s: State, step: Step)
    requires Ample(w) && Invariant(w, s) && Prompt(w, s, step)
    ensures Timely(s, step)
  {
    if step.Recover? && s.gc.Sweeping? && step.d in s.left && step.d !in s.atimes && Committed(s, step.d) {
      var b :| b in s.backups && step.d in s.backups[b].digests
               && s.gc.start <= s.backups[b].since + GC_GRACE_S - w.write - w.sweep;
      assert Held(s, step.d, Floor(w, s.backups[b].since));
    }
  }

  lemma {:induction false} PromptRunIsTimely(w: Windows, s: State, steps: seq<Step>, t: State)
    requires Ample(w) && Invariant(w, s) && PromptRuns(w, s, steps, t)
    ensures TimelyRuns(w, s, steps, t)
    decreases |steps|
  {
    if steps != [] {
      PromptIsTimely(w, s, steps[0]);
      StepKeepsInvariant(w, s, steps[0]);
      PromptRunIsTimely(w, Apply(w, s, steps[0]), steps[1..], t);
    }
  }

  /** So whichever collections die midway, nothing committed is lost as long as each collection that recovers a
      committed backup's leftover began soon enough after it. */
  lemma PromptCollectionsLoseNothing(w: Windows, steps: seq<Step>, t: State)
    requires Ample(w) && PromptRuns(w, NEW_STORE, steps, t)
    ensures forall b, d | b in t.backups && d in t.backups[b].digests :: InReach(t, d) || d in t.left
  {
    PromptRunIsTimely(w, NEW_STORE, steps, t);
    CrashesLoseNothingRecoveredInTime(w, steps, t);
  }

  /** Without a crash there is no leftover. */
  lemma {:induction false} NoCrashNoLeftover(w: Windows, s: State, steps: seq<Step>, t: State)
    requires Runs(w, s, steps, t) && Crash !in steps && s.left == map[]
    ensures TimelyRuns(w, s, steps, t) && t.left == map[]
    decreases |steps|
  {
    if steps != [] {
      assert steps[0] in steps;
      assert Apply(w, s, steps[0]).left == map[];
      NoCrashNoLeftover(w, Apply(w, s, steps[0]), steps[1..], t);
    }
  }

  /** In every interleaving of backups, deletions and collections in which no collection dies midway, a chunk a
      committed backup names is at its path, or is renamed by the running sweep with an access time that sends it
      back. */
  lemma CollectionNeverLosesCommittedChunks(w: Windows, steps: seq<Step>, t: State)
    requires Ample(w) && Runs(w, NEW_STORE, steps, t) && Crash !in steps
    ensures Safe(t)
    ensures !t.gc.Renamed? ==> forall b, d | b in t.backups && d in t.backups[b].digests :: d in t.atimes
  {
    NoCrashNoLeftover(w, NEW_STORE, steps, t);
    CrashesLoseNothingRecoveredInTime(w, steps, t);
    forall b, d | b in t.backups && d in t.backups[b].digests
      ensures InReach(t, d) && (t.gc.Renamed? || d in t.atimes)
    {
    }
  }

  // ---- Safety of what the steps committed ----

  function UsedAfter(before: set<Digest>, step: Step, b: BackupId): set<Digest>
  {
    match step
    case Begin(x, _) => if x == b then {} else before
    case Touch(x, d) => if x == b then before + {d} else before
    case Write(x, d, _) => if x == b then before + {d} else before
    case _ => before
  }

  /** What backup `b` touched or wrote since it last began, `before` being what it held before these steps. */
  function Used(steps: seq<Step>, b: BackupId, before: set<Digest>): set<Digest>
    decreases |steps|
  {
    if steps == [] then before else Used(steps[1..], b, UsedAfter(before, steps[0], b))
  }

  /** A backup under way holds exactly what it touched or wrote since it began, and goes on until it commits or
      fails. */
  lemma {:induction false} JobHoldsWhatItUsed(
    w: Windows, s: State, steps: seq<Step>, t: State, b: BackupId, before: set<Digest>)
    requires Runs(w, s, steps, t) && (b in s.jobs ==> s.jobs[b].used == before)
    ensures b in t.jobs ==> t.jobs[b].used == Used(steps, b, before)
    ensures b in s.jobs && Commit(b) !in steps && Fail(b) !in steps ==> b in t.jobs
    decreases |steps|
  {
    if steps != [] {
      assert steps[0] in steps;
      JobHoldsWhatItUsed(w, Apply(w, s, steps[0]), steps[1..], t, b, UsedAfter(before, steps[0], b));
    }
  }

  /** A committed backup stays, and stays what it is, until it is itself deleted. */
  lemma {:induction false} BackupStays(w: Windows, s: State, steps: seq<Step>, t: State, b: BackupId)
    requires Runs(w, s, steps, t) && b in s.backups && Delete(b) !in steps
    ensures b in t.backups && t.backups[b] == s.backups[b]
    decreases |steps|
  {
    if steps != [] {
      assert steps[0] in steps;
      BackupStays(w, Apply(w, s, steps[0]), steps[1..], t, b);
    }
  }

  lemma {:induction false} RunsSplit(w: Windows, s: State, xs: seq<Step>, ys: seq<Step>, u: State) returns (t: State)
    requires Runs(w, s, xs + ys, u)
    ensures Runs(w, s, xs, t) && Runs(w, t, ys, u)
    decreases |xs|
  {
    if xs == [] {
      assert xs + ys == ys;
      t := s;
    } else {
      assert (xs + ys)[1..] == xs[1..] + ys;
      t := RunsSplit(w, Apply(w, s, xs[0]), xs[1..], ys, u);
    }
  }

  /** A commit records what the backup touched or wrote since it began, and later steps keep it until it is deleted. */
  lemma CommittedIsRecorded(w: Windows, earlier: seq<Step>, b: BackupId, later: seq<Step>, t: State)
    requires Runs(w, NEW_STORE, earlier + [Commit(b)] + later, t) && Delete(b) !in later
    ensures b in t.backups && t.backups[b].digests == Used(earlier, b, {})
  {
    var committed := RunsSplit(w, NEW_STORE, earlier + [Commit(b)], later, t);
    var s := RunsSplit(w, NEW_STORE, earlier, [Commit(b)], committed);
    JobHoldsWhatItUsed(w, NEW_STORE, earlier, s, b, {});
    assert [Commit(b)][1..] == [];
    assert committed == Apply(w, s, Commit(b));
    BackupStays(w, committed, later, t, b);
  }

  /** So, in terms of the steps alone: each chunk that a backup touched or wrote before it committed is in reach for as
      long as the backup is not deleted, in every run in which no collection dies. */
  lemma WhatWasCommittedIsInReach(w: Windows, earlier: seq<Step>, b: BackupId, later: seq<Step>, t: State)
    requires Ample(w) && Runs(w, NEW_STORE, earlier + [Commit(b)] + later, t)
    requires Crash !in earlier && Crash !in later && Delete(b) !in later
    ensures forall d | d in Used(earlier, b, {}) :: InReach(t, d)
  {
    CommittedIsRecorded(w, earlier, b, later, t);
    assert Crash !in earlier + [Commit(b)] + later;
    CollectionNeverLosesCommittedChunks(w, earlier + [Commit(b)] + later, t);
  }

  /** And in every run that recovers leftovers in time, it is in reach or left over. */
  lemma WhatWasCommittedIsNotLost(w: Windows, earlier: seq<Step>, b: BackupId, later: seq<Step>, t: State)
    requires Ample(w) && TimelyRuns(w, NEW_STORE, earlier + [Commit(b)] + later, t) && Delete(b) !in later
    ensures forall d | d in Used(earlier, b, {}) :: InReach(t, d) || d in t.left
  {
    TimelyIsARun(w, NEW_STORE, earlier + [Commit(b)] + later, t);
    CommittedIsRecorded(w, earlier, b, later, t);
    CrashesLoseNothingRecoveredInTime(w, earlier + [Commit(b)] + later, t);
  }

  lemma {:induction false} TimelyIsARun(w: Windows, s: State, steps: seq<Step>, t: State)
    requires TimelyRuns(w, s, steps, t)
    ensures Runs(w, s, steps, t)
    decreases |steps|
  {
    if steps != [] {
      TimelyIsARun(w, Apply(w, s, steps[0]), steps[1..], t);
    }
  }

  // ---- A collection that dies between its rename and its check ----

  lemma {:induction false} RunsThen(w: Windows, s: State, steps: seq<Step>, t: State, step: Step)
    requires Runs(w, s, steps, t) && Enabled(w, t, step)
    ensures Runs(w, s, steps + [step], Apply(w, t, step))
    decreases |steps|
  {
    if steps == [] {
      assert [step][1..] == [];
      assert Runs(w, Apply(w, s, step), [], Apply(w, t, step));
      assert steps + [step] == [step];
    } else {
      RunsThen(w, Apply(w, s, steps[0]), steps[1..], t, step);
      assert (steps + [step])[1..] == steps[1..] + [step];
    }
  }

  /** At its path, too young for the sweep that runs, which is not at it. */
  predicate Passed(s: State, d: Digest, start: real)
  {
    && d in s.atimes && s.atimes[d] >= start - GC_GRACE_S && start <= s.now
    && (s.gc.Idle? || (Sweeps(s.gc) && s.gc.start == start && (s.gc.Sweeping? || s.gc.d != d)))
  }

  lemma PassedNext(w: Windows, s: State, d: Digest, start: real, step: Step)
    requires Sane(w) && Passed(s, d, start) && Enabled(w, s, step) && !step.Start?
    ensures Passed(Apply(w, s, step), d, start)
  {
  }

  lemma {:induction false} PassedStays(w: Windows, s: State, d: Digest, start: real, steps: seq<Step>, t: State)
    requires Sane(w) && Passed(s, d, start) && Runs(w, s, steps, t) && Start !in steps
    ensures Passed(t, d, start)
    decreases |steps|
  {
    if steps != [] {
      assert steps[0] in steps;
      PassedNext(w, s, d, start, steps[0]);
      PassedStays(w, Apply(w, s, steps[0]), d, start, steps[1..], t);
    }
  }

  function Judged(d: Digest): seq<Step>
  {
    [Stat(d), Rename, Unlink]
  }

  lemma OldChunkGoes(w: Windows, s: State, d: Digest) returns (t: State)
    requires s.gc.Sweeping? && d in s.atimes && s.atimes[d] < Cutoff(s.gc)
    ensures Runs(w, s, Judged(d), t) && t.backups == s.backups && d !in t.atimes && d !in t.left
  {
    var t1 := Apply(w, s, Stat(d));
    var t2 := Apply(w, t1, Rename);
    t := Apply(w, t2, Unlink);
    Run3(w, s, Stat(d), t1, Rename, t2, Unlink, t);
  }

  /** A collection gives a leftover its own name back before it judges its age, whoever names it: the chunk outlives
      every run of that collection and of the backups beside it, crashes included, if and only if the time it was last
      touched is not before the cutoff. */
  lemma LeftoverIsJudgedByItsAge(w: Windows, s: State, d: Digest)
    requires Sane(w) && s.gc.Sweeping? && s.gc.start <= s.now && d in s.left && d !in s.atimes
    ensures Enabled(w, s, Recover(d))
    ensures var recovered := Apply(w, s, Recover(d));
      (forall steps, t | Runs(w, recovered, steps, t) && Start !in steps :: d in t.atimes) <==>
      s.left[d] >= Cutoff(s.gc)
  {
    var recovered := Apply(w, s, Recover(d));
    if s.left[d] >= Cutoff(s.gc) {
      forall steps, t | Runs(w, recovered, steps, t) && Start !in steps
        ensures d in t.atimes
      {
        PassedStays(w, recovered, d, s.gc.start, steps, t);
      }
    } else {
      var t := OldChunkGoes(w, recovered, d);
      assert Runs(w, recovered, Judged(d), t) && Start !in Judged(d);
    }
  }

  /** A backup that finds chunk 7 old touches it just after the sweep's first look and commits; the collection dies
      holding the chunk, and the next one begins a day and more later. */
  const DYING_COLLECTION: seq<Step> :=
    [Begin(0, false), Miss(0, 7), Write(0, 7, 0.0)] + [Tick(100000.0), Start, Marked] +
    [Stat(7), Begin(1, false), Touch(1, 7)] + [Check(1), Rename, Commit(1)] + [Crash]

  const NEXT_COLLECTION: seq<Step> :=
    [Tick(100000.0), Start, Mark(7)] + [Marked, Recover(7), Stat(7)] + [Rename, Unlink, Stop]

  /** Three steps, their outcomes written out. */
  lemma Run3(w: Windows, s: State, a: Step, t1: State, b: Step, t2: State, c: Step, t3: State)
    requires Enabled(w, s, a) && Apply(w, s, a) == t1
    requires Enabled(w, t1, b) && Apply(w, t1, b) == t2
    requires Enabled(w, t2, c) && Apply(w, t2, c) == t3
    ensures Runs(w, s, [a, b, c], t3)
  {
    RunsThen(w, s, [], s, a);
    assert [] + [a] == [a];
    RunsThen(w, s, [a], t1, b);
    RunsThen(w, s, [a, b], t2, c);
  }

  lemma {:induction false} RunsConcat(w: Windows, s: State, xs: seq<Step>, t: State, ys: seq<Step>, u: State)
    requires Runs(w, s, xs, t) && Runs(w, t, ys, u)
    ensures Runs(w, s, xs + ys, u)
    decreases |xs|
  {
    if xs == [] {
      assert xs + ys == ys;
    } else {
      RunsConcat(w, Apply(w, s, xs[0]), xs[1..], t, ys, u);
      assert (xs + ys)[1..] == xs[1..] + ys;
    }
  }

  lemma FourRuns(w: Windows, s: State, a: seq<Step>, s1: State, b: seq<Step>, s2: State, c: seq<Step>, s3: State,
                 d: seq<Step>, s4: State)
    requires Runs(w, s, a, s1) && Runs(w, s1, b, s2) && Runs(w, s2, c, s3) && Runs(w, s3, d, s4)
    ensures Runs(w, s, a + b + c + d, s4)
  {
    RunsConcat(w, s, a, s1, b, s2);
    RunsConcat(w, s, a + b, s2, c, s3);
    RunsConcat(w, s, a + b + c, s3, d, s4);
  }

  const WRITER := Job(0.0, {7}, map[7 := 0.0], Reading)
  const COMMITTED: map<BackupId, Backup> := map[1 := Backup({7}, 100000.0, 100000.0)]
  const OLD_CHUNK := State(0.0, map[7 := 0.0], map[0 := WRITER], map[], Idle, map[])
  const SWEEP_BEGINS := State(100000.0, map[7 := 0.0], map[0 := WRITER], map[], Sweeping(100000.0), map[])
  const TOUCHED_UNDER_CHECK :=
    State(100000.0, map[7 := 100000.0], map[0 := WRITER, 1 := Job(100000.0, {7}, map[], Reading)], map[],
          Stated(100000.0, 7, 100000.0), map[])
  const HELD_CHUNK :=
    State(100000.0, map[], map[0 := WRITER], COMMITTED, Renamed(100000.0, 7, 100000.0, 100000.0), map[])
  const LOST_CHUNK := State(100000.0, map[], map[0 := WRITER], COMMITTED, Idle, map[7 := 100000.0])
  const NEXT_MARKED := State(200000.0, map[], map[0 := WRITER], COMMITTED, Marking(200000.0, {7}), map[7 := 100000.0])
  const NEXT_JUDGES :=
    State(200000.0, map[7 := 100000.0], map[0 := WRITER], COMMITTED, Stated(200000.0, 7, 200000.0), map[])
  const GONE_FOR_GOOD := State(200000.0, map[], map[0 := WRITER], COMMITTED, Idle, map[])

  lemma WriteOldChunk(w: Windows)
    requires Sane(w)
    ensures Runs(w, NEW_STORE, [Begin(0, false), Miss(0, 7), Write(0, 7, 0.0)], OLD_CHUNK)
  {
    assert var none: set<Digest> := {}; none + {7} == {7};
    var t1 := NEW_STORE.(jobs := map[0 := Job(0.0, {}, map[], Reading)]);
    var t2 := t1.(jobs := map[0 := Job(0.0, {}, map[7 := 0.0], Reading)]);
    var t3 := t2.(atimes := map[7 := 0.0], jobs := map[0 := WRITER]);
    Run3(w, NEW_STORE, Begin(0, false), t1, Miss(0, 7), t2, Write(0, 7, 0.0), t3);
  }

  lemma BeginSweep(w: Windows)
    requires Sane(w)
    ensures Runs(w, OLD_CHUNK, [Tick(100000.0), Start, Marked], SWEEP_BEGINS)
  {
    var t1 := OLD_CHUNK.(now := 100000.0);
    var t2 := t1.(gc := Marking(100000.0, {}));
    var t3 := t2.(gc := Sweeping(100000.0));
    Run3(w, OLD_CHUNK, Tick(100000.0), t1, Start, t2, Marked, t3);
  }

  lemma TouchUnderCheck(w: Windows)
    requires Sane(w)
    ensures Runs(w, SWEEP_BEGINS, [Stat(7), Begin(1, false), Touch(1, 7)], TOUCHED_UNDER_CHECK)
  {
    assert var none: set<Digest> := {}; none + {7} == {7};
    var t1 := SWEEP_BEGINS.(gc := Stated(100000.0, 7, 100000.0));
    var t2 := t1.(jobs := map[0 := WRITER, 1 := Job(100000.0, {}, map[], Reading)]);
    var t3 := t2.(atimes := map[7 := 100000.0], jobs := map[0 := WRITER, 1 := Job(100000.0, {7}, map[], Reading)]);
    Run3(w, SWEEP_BEGINS, Stat(7), t1, Begin(1, false), t2, Touch(1, 7), t3);
  }

  lemma CommitHeldChunk(w: Windows)
    requires Sane(w) && w.margin <= GC_GRACE_S
    ensures Runs(w, TOUCHED_UNDER_CHECK, [Check(1), Rename, Commit(1)], HELD_CHUNK)
  {
    var t1 := TOUCHED_UNDER_CHECK.(jobs := map[0 := WRITER, 1 := Job(100000.0, {7}, map[], Checked)]);
    var t2 := t1.(atimes := map[], gc := Renamed(100000.0, 7, 100000.0, 100000.0));
    var t3 := t2.(jobs := map[0 := WRITER], backups := COMMITTED);
    Run3(w, TOUCHED_UNDER_CHECK, Check(1), t1, Rename, t2, Commit(1), t3);
  }

  lemma MarkMissing(w: Windows)
    requires Sane(w)
    ensures Runs(w, LOST_CHUNK, [Tick(100000.0), Start, Mark(7)], NEXT_MARKED)
  {
    assert var none: set<Digest> := {}; none + {7} == {7};
    var t1 := LOST_CHUNK.(now := 200000.0);
    var t2 := t1.(gc := Marking(200000.0, {}));
    var t3 := t2.(gc := Marking(200000.0, {7}));
    Run3(w, LOST_CHUNK, Tick(100000.0), t1, Start, t2, Mark(7), t3);
  }

  lemma JudgeLeftover(w: Windows)
    requires Sane(w)
    ensures Runs(w, NEXT_MARKED, [Marked, Recover(7), Stat(7)], NEXT_JUDGES)
  {
    var t1 := NEXT_MARKED.(gc := Sweeping(200000.0));
    var t2 := t1.(atimes := map[7 := 100000.0], left := map[]);
    var t3 := t2.(gc := Stated(200000.0, 7, 200000.0));
    Run3(w, NEXT_MARKED, Marked, t1, Recover(7), t2, Stat(7), t3);
  }

  lemma DropLeftover(w: Windows)
    requires Sane(w)
    ensures Runs(w, NEXT_JUDGES, [Rename, Unlink, Stop], GONE_FOR_GOOD)
  {
    var t1 := NEXT_JUDGES.(atimes := map[], gc := Renamed(200000.0, 7, 200000.0, 100000.0));
    var t2 := t1.(gc := Sweeping(200000.0));
    var t3 := t2.(gc := Idle);
    Run3(w, NEXT_JUDGES, Rename, t1, Unlink, t2, Stop, t3);
  }

  /** The crash clause of the safety theorem is needed: a committed backup's chunk is out of reach after the crash. */
  lemma DyingCollectionLosesChunk(w: Windows)
    requires Sane(w) && w.margin <= GC_GRACE_S
    ensures Runs(w, NEW_STORE, DYING_COLLECTION, LOST_CHUNK) && !Safe(LOST_CHUNK)
  {
    WriteOldChunk(w);
    BeginSweep(w);
    TouchUnderCheck(w);
    CommitHeldChunk(w);
    var a, b := [Begin(0, false), Miss(0, 7), Write(0, 7, 0.0)], [Tick(100000.0), Start, Marked];
    var c, d := [Stat(7), Begin(1, false), Touch(1, 7)], [Check(1), Rename, Commit(1)];
    FourRuns(w, NEW_STORE, a, OLD_CHUNK, b, SWEEP_BEGINS, c, TOUCHED_UNDER_CHECK, d, HELD_CHUNK);
    RunsThen(w, NEW_STORE, a + b + c + d, HELD_CHUNK, Crash);
    assert 7 in LOST_CHUNK.backups[1].digests && !InReach(LOST_CHUNK, 7);
  }

  /** And the next collection, which marks before it recovers, deletes the chunk for good. */
  lemma NextCollectionDeletesIt(w: Windows)
    requires Sane(w)
    ensures Runs(w, LOST_CHUNK, NEXT_COLLECTION, GONE_FOR_GOOD) && GONE_FOR_GOOD.gc.Idle?
    ensures 7 in GONE_FOR_GOOD.backups[1].digests && 7 !in GONE_FOR_GOOD.atimes && 7 !in GONE_FOR_GOOD.left
  {
    MarkMissing(w);
    JudgeLeftover(w);
    DropLeftover(w);
    var a, b, c := [Tick(100000.0), Start, Mark(7)], [Marked, Recover(7), Stat(7)], [Rename, Unlink, Stop];
    RunsConcat(w, LOST_CHUNK, a, NEXT_MARKED, b, NEXT_JUDGES);
    RunsConcat(w, LOST_CHUNK, a + b, NEXT_JUDGES, c, GONE_FOR_GOOD);
  }

  // ---- The margin is that of the two windows ----

  /** When the first sweep begins: a second after chunk 7, written at 0, is old enough for it. */
  const FIRST_SWEEP: real := GC_GRACE_S + 1.0

  function SecondSweep(w: Windows): real
  {
    FIRST_SWEEP + w.sweep + GC_GRACE_S - w.margin
  }

  const MISSED := Job(0.0, {}, map[7 := 0.0], Reading)
  const LATE_WRITER := MISSED.(used := {7})

  function User(w: Windows, phase: Phase): Job
  {
    Job(FIRST_SWEEP + w.sweep, {7}, map[7 := FIRST_SWEEP + w.sweep], phase)
  }

  const BOTH_BEGUN := State(0.0, map[], map[0 := MISSED, 1 := Job(0.0, {}, map[], Reading)], map[], Idle, map[])
  const GROWN_OLD :=
    State(FIRST_SWEEP, map[7 := 0.0], map[0 := MISSED, 1 := LATE_WRITER], map[], Idle, map[])
  const LOOKED_AT := GROWN_OLD.(gc := Stated(FIRST_SWEEP, 7, FIRST_SWEEP))

  function TakenAway(w: Windows): State
  {
    State(FIRST_SWEEP + w.sweep, map[], map[0 := LATE_WRITER, 1 := LATE_WRITER], map[],
          Renamed(FIRST_SWEEP, 7, FIRST_SWEEP, FIRST_SWEEP - w.write), map[])
  }

  function WrittenAgain(w: Windows): State
  {
    TakenAway(w).(atimes := map[7 := FIRST_SWEEP + w.sweep],
                  jobs := map[0 := LATE_WRITER, 1 := LATE_WRITER, 2 := User(w, Reading)])
  }

  function LoweredAgain(w: Windows): State
  {
    State(FIRST_SWEEP + w.sweep, map[7 := FIRST_SWEEP - w.write],
          map[0 := LATE_WRITER, 1 := LATE_WRITER, 2 := User(w, Checked)], map[], Idle, map[])
  }

  function SweptAgain(w: Windows): State
  {
    LoweredAgain(w).(now := SecondSweep(w), gc := Sweeping(SecondSweep(w)))
  }

  function CommittedTooLate(w: Windows): State
  {
    State(SecondSweep(w), map[], map[0 := LATE_WRITER, 1 := LATE_WRITER],
          map[2 := Backup({7}, FIRST_SWEEP + w.sweep, SecondSweep(w))],
          Renamed(SecondSweep(w), 7, SecondSweep(w), FIRST_SWEEP - w.write), map[])
  }

  lemma BeginBoth(w: Windows)
    ensures Runs(w, NEW_STORE, [Begin(0, false), Miss(0, 7), Begin(1, false)], BOTH_BEGUN)
  {
    var t1 := NEW_STORE.(jobs := map[0 := Job(0.0, {}, map[], Reading)]);
    var t2 := NEW_STORE.(jobs := map[0 := MISSED]);
    Run3(w, NEW_STORE, Begin(0, false), t1, Miss(0, 7), t2, Begin(1, false), BOTH_BEGUN);
  }

  lemma GrowOld(w: Windows)
    requires Sane(w)
    ensures Runs(w, BOTH_BEGUN, [Miss(1, 7), Write(1, 7, 0.0), Tick(FIRST_SWEEP)], GROWN_OLD)
  {
    var t1 := BOTH_BEGUN.(jobs := map[0 := MISSED, 1 := MISSED]);
    var t2 := GROWN_OLD.(now := 0.0);
    assert var none: set<Digest> := {}; none + {7} == {7};
    Run3(w, BOTH_BEGUN, Miss(1, 7), t1, Write(1, 7, 0.0), t2, Tick(FIRST_SWEEP), GROWN_OLD);
  }

  lemma LookAt(w: Windows)
    ensures Runs(w, GROWN_OLD, [Start, Marked, Stat(7)], LOOKED_AT)
  {
    var t1 := GROWN_OLD.(gc := Marking(FIRST_SWEEP, {}));
    var t2 := GROWN_OLD.(gc := Sweeping(FIRST_SWEEP));
    Run3(w, GROWN_OLD, Start, t1, Marked, t2, Stat(7), LOOKED_AT);
  }

  lemma TakeAway(w: Windows)
    requires Sane(w)
    ensures Runs(w, LOOKED_AT, [Write(0, 7, FIRST_SWEEP - w.write), Rename, Tick(w.sweep)], TakenAway(w))
  {
    assert var none: set<Digest> := {}; none + {7} == {7};
    var t1 := LOOKED_AT.(atimes := map[7 := FIRST_SWEEP - w.write], jobs := map[0 := LATE_WRITER, 1 := LATE_WRITER]);
    var t2 := TakenAway(w).(now := FIRST_SWEEP);
    Run3(w, LOOKED_AT, Write(0, 7, FIRST_SWEEP - w.write), t1, Rename, t2, Tick(w.sweep), TakenAway(w));
  }

  lemma WriteAgain(w: Windows)
    requires Sane(w)
    ensures Runs(w, TakenAway(w), [Begin(2, false), Miss(2, 7), Write(2, 7, FIRST_SWEEP + w.sweep)], WrittenAgain(w))
  {
    assert var none: set<Digest> := {}; none + {7} == {7};
    var s, now := TakenAway(w), FIRST_SWEEP + w.sweep;
    var t1 := s.(jobs := map[0 := LATE_WRITER, 1 := LATE_WRITER, 2 := Job(now, {}, map[], Reading)]);
    var t2 := s.(jobs := map[0 := LATE_WRITER, 1 := LATE_WRITER, 2 := Job(now, {}, map[7 := now], Reading)]);
    Run3(w, s, Begin(2, false), t1, Miss(2, 7), t2, Write(2, 7, now), WrittenAgain(w));
  }

  lemma LowerAgain(w: Windows)
    requires Sane(w)
    ensures Runs(w, WrittenAgain(w), [PutBack, Check(2), Stop], LoweredAgain(w))
  {
    var t1 := WrittenAgain(w).(atimes := map[7 := FIRST_SWEEP - w.write], gc := Sweeping(FIRST_SWEEP));
    var t2 := LoweredAgain(w).(gc := Sweeping(FIRST_SWEEP));
    Run3(w, WrittenAgain(w), PutBack, t1, Check(2), t2, Stop, LoweredAgain(w));
  }

  lemma SweepAgain(w: Windows)
    requires Sane(w) && w.margin < w.write + w.sweep
    ensures Runs(w, LoweredAgain(w), [Tick(GC_GRACE_S - w.margin), Start, Marked], SweptAgain(w))
  {
    var t1 := LoweredAgain(w).(now := SecondSweep(w));
    var t2 := t1.(gc := Marking(SecondSweep(w), {}));
    Run3(w, LoweredAgain(w), Tick(GC_GRACE_S - w.margin), t1, Start, t2, Marked, SweptAgain(w));
  }

  lemma CommitTooLate(w: Windows)
    requires Sane(w) && w.margin < w.write + w.sweep
    ensures Runs(w, SweptAgain(w), [Stat(7), Commit(2), Rename], CommittedTooLate(w))
  {
    var t1 := SweptAgain(w).(gc := Stated(SecondSweep(w), 7, SecondSweep(w)));
    var t2 := t1.(jobs := map[0 := LATE_WRITER, 1 := LATE_WRITER], backups := CommittedTooLate(w).backups);
    Run3(w, SweptAgain(w), Stat(7), t1, Commit(2), t2, Rename, CommittedTooLate(w));
  }

  function GrowingOld(): seq<Step>
  {
    [Begin(0, false), Miss(0, 7), Begin(1, false)] + [Miss(1, 7), Write(1, 7, 0.0), Tick(FIRST_SWEEP)]
  }

  function TakingAway(w: Windows): seq<Step>
  {
    [Start, Marked, Stat(7)] + [Write(0, 7, FIRST_SWEEP - w.write), Rename, Tick(w.sweep)]
  }

  function LoweringAgain(w: Windows): seq<Step>
  {
    [Begin(2, false), Miss(2, 7), Write(2, 7, FIRST_SWEEP + w.sweep)] + [PutBack, Check(2), Stop]
  }

  function CommittingTooLate(w: Windows): seq<Step>
  {
    [Tick(GC_GRACE_S - w.margin), Start, Marked] + [Stat(7), Commit(2), Rename]
  }

  lemma RunGrowingOld(w: Windows)
    requires Sane(w)
    ensures Runs(w, NEW_STORE, GrowingOld(), GROWN_OLD)
  {
    BeginBoth(w);
    GrowOld(w);
    RunsConcat(w, NEW_STORE, [Begin(0, false), Miss(0, 7), Begin(1, false)], BOTH_BEGUN,
               [Miss(1, 7), Write(1, 7, 0.0), Tick(FIRST_SWEEP)], GROWN_OLD);
  }

  lemma RunTakingAway(w: Windows)
    requires Sane(w)
    ensures Runs(w, GROWN_OLD, TakingAway(w), TakenAway(w))
  {
    LookAt(w);
    TakeAway(w);
    RunsConcat(w, GROWN_OLD, [Start, Marked, Stat(7)], LOOKED_AT,
               [Write(0, 7, FIRST_SWEEP - w.write), Rename, Tick(w.sweep)], TakenAway(w));
  }

  lemma RunLoweringAgain(w: Windows)
    requires Sane(w)
    ensures Runs(w, TakenAway(w), LoweringAgain(w), LoweredAgain(w))
  {
    WriteAgain(w);
    LowerAgain(w);
    RunsConcat(w, TakenAway(w), [Begin(2, false), Miss(2, 7), Write(2, 7, FIRST_SWEEP + w.sweep)], WrittenAgain(w),
               [PutBack, Check(2), Stop], LoweredAgain(w));
  }

  lemma RunCommittingTooLate(w: Windows)
    requires Sane(w) && w.margin < w.write + w.sweep
    ensures Runs(w, LoweredAgain(w), CommittingTooLate(w), CommittedTooLate(w))
  {
    SweepAgain(w);
    CommitTooLate(w);
    RunsConcat(w, LoweredAgain(w), [Tick(GC_GRACE_S - w.margin), Start, Marked], SweptAgain(w),
               [Stat(7), Commit(2), Rename], CommittedTooLate(w));
  }

  /** With any smaller margin a chunk can be lost, and no collection dies for it. A backup that missed chunk 7 long ago
      writes it, dated back by a write window, between a sweep's first look and its rename; another one writes it again,
      and the rename back dates it back by a sweep window more. The next collection finds it old, and the other backup
      commits just before the chunk goes. */
  lemma SmallerMarginLosesChunk(w: Windows)
    requires Sane(w) && w.margin < w.write + w.sweep
    ensures exists steps, t :: Runs(w, NEW_STORE, steps, t) && Crash !in steps && !Safe(t)
  {
    RunGrowingOld(w);
    RunTakingAway(w);
    RunLoweringAgain(w);
    RunCommittingTooLate(w);
    NoCrash(w);
    assert 7 in CommittedTooLate(w).backups[2].digests;
    UnlinkLoses(w, CommittedTooLate(w), 2);
    RunsConcat(w, NEW_STORE, GrowingOld(), GROWN_OLD, TakingAway(w), TakenAway(w));
    RunsConcat(w, TakenAway(w), LoweringAgain(w), LoweredAgain(w), CommittingTooLate(w), CommittedTooLate(w));
    RunsThenLoses(w, GrowingOld() + TakingAway(w), TakenAway(w), LoweringAgain(w) + CommittingTooLate(w),
                  CommittedTooLate(w), Unlink);
  }

  lemma NoCrash(w: Windows)
    ensures Crash !in GrowingOld() && Crash !in TakingAway(w)
    ensures Crash !in LoweringAgain(w) && Crash !in CommittingTooLate(w)
  {
  }

  lemma UnlinkLoses(w: Windows, s: State, k: BackupId)
    requires Enabled(w, s, Unlink) && s.gc.d !in s.atimes && k in s.backups && s.gc.d in s.backups[k].digests
    ensures !Safe(Apply(w, s, Unlink))
  {
    var end := Apply(w, s, Unlink);
    assert s.gc.d in end.backups[k].digests && !InReach(end, s.gc.d);
  }

  lemma RunsThenLoses(w: Windows, a: seq<Step>, s: State, b: seq<Step>, t: State, step: Step)
    requires Runs(w, NEW_STORE, a, s) && Runs(w, s, b, t) && Crash !in a && Crash !in b && step != Crash
    requires Enabled(w, t, step) && !Safe(Apply(w, t, step))
    ensures exists steps, end :: Runs(w, NEW_STORE, steps, end) && Crash !in steps && !Safe(end)
  {
    RunsConcat(w, NEW_STORE, a, s, b, t);
    RunsThen(w, NEW_STORE, a + b, t, step);
    assert Crash !in a + b + [step];
  }

  /** Runs in which no collection dies lose no committed chunk if and only if backups leave a margin of the two
      windows. */
  lemma MarginIsTheWindows(w: Windows)
    requires Sane(w)
    ensures (forall steps, t | Runs(w, NEW_STORE, steps, t) && Crash !in steps :: Safe(t)) <==>
            w.write + w.sweep <= w.margin
  {
    if w.write + w.sweep <= w.margin {
      forall steps, t | Runs(w, NEW_STORE, steps, t) && Crash !in steps
        ensures Safe(t)
      {
        CollectionNeverLosesCommittedChunks(w, steps, t);
      }
    } else {
      SmallerMarginLosesChunk(w);
    }
  }
}
