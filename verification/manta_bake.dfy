/** The bake-cache bookkeeping of the Mantaflow fluid operators.

    Every cache category has a BAKING and a BAKED bit in the domain's cache
    flag and a pause frame. Bake jobs mark a category as baking, run the
    frame loop (which records its progress in the pause frame, so that an
    interrupted bake resumes) and mark it baked; free jobs clear the bits and
    pause frames; the free operator refuses to run while a bake is pending. */
module MantaBake {

  datatype Option<T> = None | Some(value: T)

  datatype Category = Data | Noise | Mesh | Particles | Guiding

  datatype Phase = Baking | Baked

  /** The domain's cache flag: the set of (category, phase) bits that are set. */
  type CacheFlags = set<(Category, Phase)>

  /** What a job's operator type identifier selects. */
  datatype JobKind = BakeJob(cat: Category) | FreeJob(cat: Category) | OtherJob

  function BakeIdname(c: Category): string {
    match c
    case Data => "MANTA_OT_bake_data"
    case Noise => "MANTA_OT_bake_noise"
    case Mesh => "MANTA_OT_bake_mesh"
    case Particles => "MANTA_OT_bake_particles"
    case Guiding => "MANTA_OT_bake_guiding"
  }

  function FreeIdname(c: Category): string {
    match c
    case Data => "MANTA_OT_free_data"
    case Noise => "MANTA_OT_free_noise"
    case Mesh => "MANTA_OT_free_mesh"
    case Particles => "MANTA_OT_free_particles"
    case Guiding => "MANTA_OT_free_guiding"
  }

  /** The job a type identifier names, as the chains of string comparisons
      in the job callbacks decide it. */
  function JobKindOf(idname: string): (k: JobKind)
    ensures forall c :: k == BakeJob(c) <==> idname == BakeIdname(c)
    ensures forall c :: k == FreeJob(c) <==> idname == FreeIdname(c)
  {
    if idname == "MANTA_OT_bake_data" then BakeJob(Data)
    else if idname == "MANTA_OT_bake_noise" then BakeJob(Noise)
    else if idname == "MANTA_OT_bake_mesh" then BakeJob(Mesh)
    else if idname == "MANTA_OT_bake_particles" then BakeJob(Particles)
    else if idname == "MANTA_OT_bake_guiding" then BakeJob(Guiding)
    else if idname == "MANTA_OT_free_data" then FreeJob(Data)
    else if idname == "MANTA_OT_free_noise" then FreeJob(Noise)
    else if idname == "MANTA_OT_free_mesh" then FreeJob(Mesh)
    else if idname == "MANTA_OT_free_particles" then FreeJob(Particles)
    else if idname == "MANTA_OT_free_guiding" then FreeJob(Guiding)
    else OtherJob
  }

  /** One pause frame per category; 0 means "not paused". */
  datatype PauseFrames = PauseFrames(data: int, noise: int, mesh: int, particles: int, guiding: int)
  {
    function Get(c: Category): int {
      match c
      case Data => data
      case Noise => noise
      case Mesh => mesh
      case Particles => particles
      case Guiding => guiding
    }

    function Set(c: Category, v: int): (p: PauseFrames)
      ensures p.Get(c) == v
      ensures forall c' :: c' != c ==> p.Get(c') == Get(c')
    {
      match c
      case Data => this.(data := v)
      case Noise => this.(noise := v)
      case Mesh => this.(mesh := v)
      case Particles => this.(particles := v)
      case Guiding => this.(guiding := v)
    }
  }

  /** The domain settings the jobs read and write. */
  datatype Domain = Domain(
    cacheFlag: CacheFlags,
    pause: PauseFrames,
    frameStart: int,
    frameEnd: int,
    error: string)

  // ------------------------------------------------------------ bake jobs

  /** Bake start: the category loses BAKED and gains BAKING; no other bit
      changes, and a job of another kind changes nothing. */
  function BakeStartFlags(f: CacheFlags, k: JobKind): (r: CacheFlags)
    ensures k.BakeJob? ==> (k.cat, Baking) in r && (k.cat, Baked) !in r
    ensures forall c, p :: !(k.BakeJob? && c == k.cat) ==> ((c, p) in r <==> (c, p) in f)
  {
    match k
    case BakeJob(c) => f - {(c, Baked)} + {(c, Baking)}
    case _ => f
  }

  /** Bake end: the category loses BAKING and gains BAKED; no other bit
      changes, and a job of another kind changes nothing. */
  function BakeEndFlags(f: CacheFlags, k: JobKind): (r: CacheFlags)
    ensures k.BakeJob? ==> (k.cat, Baked) in r && (k.cat, Baking) !in r
    ensures forall c, p :: !(k.BakeJob? && c == k.cat) ==> ((c, p) in r <==> (c, p) in f)
  {
    match k
    case BakeJob(c) => f - {(c, Baking)} + {(c, Baked)}
    case _ => f
  }

  /** A bake start followed by a bake end of the same job leaves its
      category baked and not baking, and every other category as it was;
      a job of another kind leaves the flags alone. */
  lemma StartThenEnd(f: CacheFlags, k: JobKind)
    ensures k.BakeJob? ==> (k.cat, Baked) in BakeEndFlags(BakeStartFlags(f, k), k)
    ensures k.BakeJob? ==> (k.cat, Baking) !in BakeEndFlags(BakeStartFlags(f, k), k)
    ensures forall c, p :: !(k.BakeJob? && c == k.cat) ==>
      ((c, p) in BakeEndFlags(BakeStartFlags(f, k), k) <==> (c, p) in f)
    ensures !k.BakeJob? ==> BakeEndFlags(BakeStartFlags(f, k), k) == f
  {
  }

  const NoFramesError: string := "No frames to bake"

  /** The frame a bake starts from: the start of the cache range when the
      pause frame is 0, else the pause frame. */
  function ResumeFrame(pause: int, start: int): int {
    if pause == 0 then start else pause
  }

  /** The user's break request, raised before frame `b` is checked and never
      lowered while the job runs. */
  predicate IsBreak(breakFrom: Option<int>, frame: int) {
    breakFrom.Some? && breakFrom.value <= frame
  }

  function Max(a: int, b: int): int {
    if a < b then b else a
  }

  /** The frame at which a loop over `first .. end` notices the break, if
      it notices it at all. */
  function BreakSeen(first: int, end: int, breakFrom: Option<int>): Option<int> {
    if breakFrom.Some? && Max(first, breakFrom.value) <= end then Some(Max(first, breakFrom.value))
    else None
  }

  /** Result of the frame loop: the domain (error text and pause frames),
      the scene frame, and whether the job still counts as successful. */
  datatype SequenceResult = SequenceResult(domain: Domain, cfra: int, success: bool)

  /** Closed form of the bake frame loop, the reference for `BakeSequence`. */
  function SequenceOutcome(d: Domain, slot: Category, cfra: int, success: bool, breakFrom: Option<int>): SequenceResult {
    if d.frameEnd - d.frameStart + 1 <= 0 then
      SequenceResult(d.(error := NoFramesError), cfra, success)
    else
      var first := ResumeFrame(d.pause.Get(slot), d.frameStart);
      if first > d.frameEnd then
        SequenceResult(d, cfra, success)
      else
        match BreakSeen(first, d.frameEnd, breakFrom)
        case Some(f) => SequenceResult(d.(pause := d.pause.Set(slot, f)), if f == first then first else f - 1, false)
        case None => SequenceResult(d.(pause := d.pause.Set(slot, d.frameEnd)), cfra, success)
  }

  /** The bake frame loop. `cfra` is the scene's current frame; `breakFrom`
      is when the user's break request arrives. */
  method BakeSequence(d: Domain, slot: Category, cfra: int, success: bool, breakFrom: Option<int>)
    returns (r: SequenceResult)
    ensures r == SequenceOutcome(d, slot, cfra, success, breakFrom)
    ensures d.frameEnd - d.frameStart + 1 <= 0 ==>
      r.domain == d.(error := NoFramesError) && r.cfra == cfra && r.success == success
    ensures r.domain.cacheFlag == d.cacheFlag
    ensures r.domain.frameStart == d.frameStart && r.domain.frameEnd == d.frameEnd
    ensures forall c :: c != slot ==> r.domain.pause.Get(c) == d.pause.Get(c)
    ensures d.frameEnd - d.frameStart + 1 > 0 ==> r.domain.error == d.error
    ensures d.frameEnd - d.frameStart + 1 > 0 ==>
      var first := ResumeFrame(d.pause.Get(slot), d.frameStart);
      match BreakSeen(first, d.frameEnd, breakFrom)
      case Some(f) =>
        && first <= f <= d.frameEnd
        && r.domain.pause.Get(slot) == f && !r.success
        && r.cfra == (if f == first then first else f - 1)
      case None =>
        && r.success == success && r.cfra == cfra
        && r.domain.pause.Get(slot) == (if first <= d.frameEnd then d.frameEnd else d.pause.Get(slot))
  {
    var frames := d.frameEnd - d.frameStart + 1;
    if frames <= 0 {
      return SequenceResult(d.(error := NoFramesError), cfra, success);
    }
    var pause := d.pause.Get(slot);
    var first := if pause == 0 then d.frameStart else pause;
    var origFrame := cfra;
    var curFrame := first;
    var frame := first;
    while frame <= d.frameEnd
      invariant first <= frame
      invariant frame == first || frame <= d.frameEnd + 1
      invariant frame == first ==> pause == d.pause.Get(slot) && curFrame == first
      invariant frame > first ==> pause == frame - 1 && curFrame == frame - 1
      invariant forall v :: first <= v < frame ==> !IsBreak(breakFrom, v)
      decreases d.frameEnd - frame
    {
      pause := frame;
      if IsBreak(breakFrom, frame) {
        assert frame > first ==> !IsBreak(breakFrom, frame - 1);
        return SequenceResult(d.(pause := d.pause.Set(slot, pause)), curFrame, false);
      }
      curFrame := frame;
      frame := frame + 1;
    }
    if first <= d.frameEnd {
      assert !IsBreak(breakFrom, d.frameEnd);
    }
    return SequenceResult(d.(pause := d.pause.Set(slot, pause)), origFrame, success);
  }

  /** How the end callback reports a finished job. */
  datatype Outcome = Complete | Failed(message: string) | Canceled

  /** Success is reported as complete; otherwise a recorded error is a
      failure and its absence a user cancel. */
  function Classify(success: bool, error: string): Outcome {
    if success then Complete
    else if |error| > 0 then Failed(error)
    else Canceled
  }

  /** The three reports are told apart exactly by success and error text. */
  lemma ClassifyCases(success: bool, error: string)
    ensures Classify(success, error) == Complete <==> success
    ensures Classify(success, error).Failed? <==> !success && error != ""
    ensures Classify(success, error).Failed? ==> Classify(success, error).message == error
    ensures Classify(success, error) == Canceled <==> !success && error == ""
  {
  }

  /** State after a whole bake job: the domain, the scene frame and the
      reported outcome. */
  datatype BakeRun = BakeRun(domain: Domain, cfra: int, outcome: Outcome)

  /** A bake job of category `c` as written: the start callback (flags,
      success set), the frame loop on `c`'s pause frame, then the end
      callback (flags, report). */
  function RunBake(d: Domain, cfra: int, c: Category, breakFrom: Option<int>): BakeRun {
    var k := BakeJob(c);
    var started := d.(cacheFlag := BakeStartFlags(d.cacheFlag, k));
    var s := SequenceOutcome(started, c, cfra, true, breakFrom);
    BakeRun(s.domain.(cacheFlag := BakeEndFlags(s.domain.cacheFlag, k)), s.cfra, Classify(s.success, s.domain.error))
  }

  /** An uninterrupted bake over a non-empty range completes, leaves the
      category baked and not baking, records the last frame as its pause
      frame when it ran any frame (a pause frame already past the range end
      is kept), restores the scene frame and touches no other category. */
  lemma RunBakeCompletes(d: Domain, cfra: int, c: Category)
    requires d.frameEnd - d.frameStart + 1 > 0
    ensures var r := RunBake(d, cfra, c, None);
      && r.outcome == Complete
      && (c, Baked) in r.domain.cacheFlag && (c, Baking) !in r.domain.cacheFlag
      && (forall c', p :: c' != c ==> ((c', p) in r.domain.cacheFlag <==> (c', p) in d.cacheFlag))
      && r.cfra == cfra
      && (ResumeFrame(d.pause.Get(c), d.frameStart) <= d.frameEnd ==> r.domain.pause.Get(c) == d.frameEnd)
      && (ResumeFrame(d.pause.Get(c), d.frameStart) > d.frameEnd ==> r.domain.pause.Get(c) == d.pause.Get(c))
      && (forall c' :: c' != c ==> r.domain.pause.Get(c') == d.pause.Get(c'))
  {
  }

  /** A bake the user breaks at frame `f` reports a cancel (when no error is
      recorded), keeps `f` as the pause frame, does not restore the scene
      frame, and still marks the category baked. The next bake resumes at
      `f`, unless `f` is 0, which reads as "not paused" and restarts the
      bake at the cache start. */
  lemma RunBakeCanceledResumes(d: Domain, cfra: int, c: Category, b: int)
    requires d.frameEnd - d.frameStart + 1 > 0 && d.error == ""
    requires BreakSeen(ResumeFrame(d.pause.Get(c), d.frameStart), d.frameEnd, Some(b)).Some?
    ensures var f := BreakSeen(ResumeFrame(d.pause.Get(c), d.frameStart), d.frameEnd, Some(b)).value;
      var r := RunBake(d, cfra, c, Some(b));
      && r.outcome == Canceled
      && r.domain.pause.Get(c) == f
      && r.cfra == (if f == ResumeFrame(d.pause.Get(c), d.frameStart) then f else f - 1)
      && (c, Baked) in r.domain.cacheFlag && (c, Baking) !in r.domain.cacheFlag
      && (f != 0 ==> ResumeFrame(r.domain.pause.Get(c), r.domain.frameStart) == f)
      && (f == 0 ==> ResumeFrame(r.domain.pause.Get(c), r.domain.frameStart) == d.frameStart)
  {
  }

  /** As written, an empty frame range records "No frames to bake" but leaves
      the job successful, so the end callback reports the bake complete and
      marks the category baked. */
  lemma NoFramesReportedComplete(d: Domain, cfra: int, c: Category)
    requires d.frameEnd - d.frameStart + 1 <= 0
    ensures RunBake(d, cfra, c, None).outcome == Complete
    ensures RunBake(d, cfra, c, None).domain.error == NoFramesError
    ensures (c, Baked) in RunBake(d, cfra, c, None).domain.cacheFlag
  {
  }

  /** Concrete instance: a cache range from frame 10 to frame 5. */
  lemma NoFramesExample()
    ensures var d := Domain({}, PauseFrames(0, 0, 0, 0, 0), 10, 5, "");
      RunBake(d, 1, Data, None).outcome == Complete && RunBake(d, 1, Data, None).domain.error != ""
  {
    NoFramesReportedComplete(Domain({}, PauseFrames(0, 0, 0, 0, 0), 10, 5, ""), 1, Data);
  }

  /** The bake job with the evident intent restored: the frame loop's error
      path also clears the job's success, so the end callback reports it. */
  function RunBakeCorrected(d: Domain, cfra: int, c: Category, breakFrom: Option<int>): BakeRun {
    var k := BakeJob(c);
    var started := d.(cacheFlag := BakeStartFlags(d.cacheFlag, k));
    var s := SequenceOutcome(started, c, cfra, true, breakFrom);
    var success := s.success && d.frameEnd - d.frameStart + 1 > 0;
    BakeRun(s.domain.(cacheFlag := BakeEndFlags(s.domain.cacheFlag, k)), s.cfra, Classify(success, s.domain.error))
  }

  /** The corrected job reports an empty range as a failure with its
      message, reports completion only for a non-empty range, and agrees
      with the written job everywhere else. */
  lemma RunBakeCorrectedReportsNoFrames(d: Domain, cfra: int, c: Category, breakFrom: Option<int>)
    ensures d.frameEnd - d.frameStart + 1 <= 0 ==>
      RunBakeCorrected(d, cfra, c, breakFrom).outcome == Failed(NoFramesError)
    ensures RunBakeCorrected(d, cfra, c, breakFrom).outcome == Complete ==> d.frameEnd - d.frameStart + 1 > 0
    ensures d.frameEnd - d.frameStart + 1 > 0 ==> RunBakeCorrected(d, cfra, c, breakFrom) == RunBake(d, cfra, c, breakFrom)
  {
  }

  // ------------------------------------------------------------ free jobs

  /** Both bits of one category. */
  function Bits(c: Category): CacheFlags {
    {(c, Baking), (c, Baked)}
  }

  /** A bit belongs to `Bits(c)` exactly when its category is `c`. */
  lemma BitsOfCategory(c: Category)
    ensures forall c', p :: (c', p) in Bits(c) <==> c' == c
  {
    forall c', p ensures (c', p) in Bits(c) <==> c' == c {
      if c' == c {
        match p
        case Baking =>
        case Baked =>
      }
    }
  }

  /** Every category but guiding is data, noise, mesh or particles. */
  lemma NotGuiding(c: Category)
    ensures c != Guiding <==> c == Data || c == Noise || c == Mesh || c == Particles
  {
  }

  /** Free flags: freeing data clears both bits of data, noise, mesh and
      particles but keeps guiding's; freeing another category clears only
      its own two bits; a job of another kind changes nothing. */
  function FreeFlags(f: CacheFlags, k: JobKind): (r: CacheFlags)
    ensures k == FreeJob(Data) ==> forall c, p :: (c, p) in r <==> (c, p) in f && c == Guiding
    ensures k.FreeJob? && k.cat != Data ==> forall c, p :: (c, p) in r <==> (c, p) in f && c != k.cat
    ensures !k.FreeJob? ==> r == f
  {
    BitsOfCategory(Data);
    BitsOfCategory(Noise);
    BitsOfCategory(Mesh);
    BitsOfCategory(Particles);
    match k
    case FreeJob(Data) => f - (Bits(Data) + Bits(Noise) + Bits(Mesh) + Bits(Particles))
    case FreeJob(c) => BitsOfCategory(c); f - Bits(c)
    case _ => f
  }

  /** State after a free job: the domain and the scene frame. */
  datatype FreeRun = FreeRun(domain: Domain, cfra: int)

  /** The free job's start callback: flags, the freed category's pause frame
      (only data's for a data free), and the scene frame set back to the
      start of the cache range. */
  function FreeStartJob(d: Domain, k: JobKind): (r: FreeRun)
    ensures r.domain.cacheFlag == FreeFlags(d.cacheFlag, k)
    ensures k.FreeJob? ==> r.domain.pause.Get(k.cat) == 0
    ensures forall c :: !(k.FreeJob? && c == k.cat) ==> r.domain.pause.Get(c) == d.pause.Get(c)
    ensures r.cfra == d.frameStart
    ensures r.domain.frameStart == d.frameStart && r.domain.frameEnd == d.frameEnd && r.domain.error == d.error
  {
    var pause := if k.FreeJob? then d.pause.Set(k.cat, 0) else d.pause;
    FreeRun(d.(cacheFlag := FreeFlags(d.cacheFlag, k), pause := pause), d.frameStart)
  }

  /** The free operator's guard: a pending data, noise, mesh or particles
      bake. */
  predicate FreeBlocked(f: CacheFlags) {
    (Data, Baking) in f || (Noise, Baking) in f || (Mesh, Baking) in f || (Particles, Baking) in f
  }

  /** The guard reads the BAKING bit of every category but guiding. */
  lemma FreeGuard(f: CacheFlags)
    ensures FreeBlocked(f) <==> exists c :: c != Guiding && (c, Baking) in f
  {
    if exists c :: c != Guiding && (c, Baking) in f {
      var c :| c != Guiding && (c, Baking) in f;
      NotGuiding(c);
    }
  }

  datatype OperatorResult = OperatorCancelled | OperatorFinished

  /** The free operator: cancelled, with nothing changed, while a bake other
      than guiding is pending; otherwise it runs the free job. The scene
      frame is `cfra` before the operator runs. */
  function FreeExec(d: Domain, cfra: int, k: JobKind): (r: (OperatorResult, FreeRun))
    ensures r.0 == OperatorCancelled <==> exists c :: c != Guiding && (c, Baking) in d.cacheFlag
    ensures r.0 == OperatorCancelled ==> r.1 == FreeRun(d, cfra)
    ensures r.0 == OperatorFinished ==> r.1 == FreeStartJob(d, k)
  {
    FreeGuard(d.cacheFlag);
    if FreeBlocked(d.cacheFlag) then (OperatorCancelled, FreeRun(d, cfra))
    else (OperatorFinished, FreeStartJob(d, k))
  }

  /** A bake started for any category but guiding blocks every free; a
      guiding bake blocks none by itself, so a guiding free may clear the
      bits of a guiding bake still in progress. */
  lemma BakeBlocksFree(d: Domain, cfra: int, c: Category, k: JobKind)
    ensures c != Guiding ==>
      FreeExec(d.(cacheFlag := BakeStartFlags(d.cacheFlag, BakeJob(c))), cfra, k).0 == OperatorCancelled
    ensures c == Guiding && !FreeBlocked(d.cacheFlag) && k == FreeJob(Guiding) ==>
      var d' := d.(cacheFlag := BakeStartFlags(d.cacheFlag, BakeJob(Guiding)));
      && FreeExec(d', cfra, k).0 == OperatorFinished
      && (Guiding, Baking) !in FreeExec(d', cfra, k).1.domain.cacheFlag
  {
  }

  /** After a category is freed its next bake starts from the beginning of
      the cache range. */
  lemma FreeRestartsBake(d: Domain, c: Category)
    ensures ResumeFrame(FreeStartJob(d, FreeJob(c)).domain.pause.Get(c), d.frameStart) == d.frameStart
    ensures (c, Baking) !in FreeStartJob(d, FreeJob(c)).domain.cacheFlag
    ensures (c, Baked) !in FreeStartJob(d, FreeJob(c)).domain.cacheFlag
  {
  }

  /** The identifiers of the ten operators name their own jobs, and every
      other identifier is a job of another kind. */
  lemma IdnamesRoundTrip(c: Category, idname: string)
    ensures JobKindOf(BakeIdname(c)) == BakeJob(c)
    ensures JobKindOf(FreeIdname(c)) == FreeJob(c)
    ensures JobKindOf(idname) == OtherJob <==>
      forall c' :: idname != BakeIdname(c') && idname != FreeIdname(c')
  {
  }
}
