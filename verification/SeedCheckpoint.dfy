/** The seeder's checkpoint and its crash-resumable run (scripts/seed_demo_data.py,
    load_checkpoint, mark_phase, should_skip, main, seed_events and seed_bot_events). A run may
    stop between any two steps; a step is one saved checkpoint or one committed transaction. */
module SeedCheckpoint {

  // ---------------------------------------------------------------------------
  // The checkpoint file

  /** Phases by position: orgs, users, repos, copilot_seats, copilot_metrics, events, bot_events. */
  const PHASES := 7
  const FIRST_SKIPPABLE := 3
  const EVENTS := 5
  const BOTS := 6

  datatype Option<T> = None | Some(value: T)

  datatype Status = Pending | InProgress | Done

  type Statuses = s: seq<Status> | |s| == PHASES
    witness [Pending, Pending, Pending, Pending, Pending, Pending, Pending]

  datatype Checkpoint = Checkpoint(seed: int, status: Statuses, completed: bool)

  function FreshCheckpoint(seed: int): Checkpoint {
    Checkpoint(seed, [Pending, Pending, Pending, Pending, Pending, Pending, Pending], false)
  }

  function LoadCheckpoint(file: Option<Checkpoint>, seed: int): Checkpoint {
    if file.Some? && file.value.seed == seed then file.value else FreshCheckpoint(seed)
  }

  predicate AllDone(c: Checkpoint) {
    forall i :: 0 <= i < PHASES ==> c.status[i] == Done
  }

  function MarkPhase(c: Checkpoint, phase: nat, status: Status): Checkpoint
    requires phase < PHASES
  {
    var marked := c.(status := c.status[phase := status]);
    if status == Done && AllDone(marked) then marked.(completed := true) else marked
  }

  predicate ShouldSkip(c: Checkpoint, phase: nat, resume: bool)
    requires phase < PHASES
  {
    resume && c.status[phase] == Done
  }

  // ---------------------------------------------------------------------------
  // The events table

  /** Demo rows carry the generation (run), worker or bot marker, slice and number they came
      from; real rows are whatever else the table holds. */
  datatype Row = Real(id: nat) | Human(gen: nat, worker: nat, slice: nat, n: nat) | Bot(gen: nat, day: nat, n: nat)

  /** What run g would generate: its workers, their day slices and the rows of each. */
  datatype Plan = Plan(workers: nat -> nat, slices: (nat, nat) -> nat, size: (nat, nat, nat) -> nat,
                       botDays: nat -> nat, botSize: (nat, nat) -> nat)

  function SliceRows(plan: Plan, g: nat, w: nat, k: nat): seq<Row> {
    seq(plan.size(g, w, k), (n: nat) => Human(g, w, k, n))
  }

  function BotRows(plan: Plan, g: nat, day: nat): seq<Row> {
    seq(plan.botSize(g, day), (n: nat) => Bot(g, day, n))
  }

  /** DELETE FROM events WHERE source_file_path LIKE 'demo-seed/%' */
  function RealRows(rows: seq<Row>): seq<Row> {
    if rows == [] then [] else (if rows[0].Real? then [rows[0]] else []) + RealRows(rows[1..])
  }

  /** Row r belongs to the slices that run g's workers have committed. */
  predicate Committed(plan: Plan, g: nat, progress: seq<nat>, r: Row) {
    r.Human? && r.gen == g && r.worker < |progress| && r.slice < progress[r.worker]
    && r.n < plan.size(g, r.worker, r.slice)
  }

  predicate Generated(plan: Plan, g: nat, r: Row) {
    r.Human? && r.gen == g && r.worker < plan.workers(g) && r.slice < plan.slices(g, r.worker)
    && r.n < plan.size(g, r.worker, r.slice)
  }

  /** The human demo rows are those of generation g, each once. */
  ghost predicate HumanRowsAre(plan: Plan, rows: seq<Row>, g: nat) {
    forall r: Row :: r.Human? ==> multiset(rows)[r] == if Generated(plan, g, r) then 1 else 0
  }

  ghost predicate NoBotRows(rows: seq<Row>) {
    forall r: Row :: r.Bot? ==> multiset(rows)[r] == 0
  }

  ghost predicate HumanRowsCommitted(plan: Plan, rows: seq<Row>, g: nat, progress: seq<nat>) {
    forall r: Row :: r.Human? ==> multiset(rows)[r] == if Committed(plan, g, progress, r) then 1 else 0
  }

  // ---------------------------------------------------------------------------
  // The machine

  datatype Stage =
    | AtPhase(phase: nat)
    | SeedingTables(phase: nat)
    | SeedingEvents
    | CopyingEvents(progress: seq<nat>)
    | SeedingBots(day: nat)
    | Returned(phase: nat)

  datatype Process = Process(mem: Checkpoint, gen: nat, resume: bool, skipEvents: bool, withBots: bool, stage: Stage)

  /** `returned` records which (seed, phase) seedings have ever run to their end. */
  datatype State = State(
    file: Option<Checkpoint>, events: seq<Row>, process: Option<Process>, nextGen: nat, returned: set<(int, nat)>)

  datatype Action =
    | Launch(seed: int, resume: bool, skipEvents: bool, withBots: bool)
    | Advance
    | CopySlice(worker: nat)
    | Crash

  function Move(s: State, p: Process, stage: Stage): State {
    s.(process := Some(p.(stage := stage)))
  }

  /** mark_phase saves the file. */
  function Mark(s: State, p: Process, phase: nat, status: Status, stage: Stage): State
    requires phase < PHASES
  {
    var c := MarkPhase(p.mem, phase, status);
    s.(file := Some(c), process := Some(p.(mem := c, stage := stage)))
  }

  function Exit(s: State): State {
    s.(process := None)
  }

  function Return(s: State, p: Process, phase: nat): State {
    Move(s.(returned := s.returned + {(p.mem.seed, phase)}), p, Returned(phase))
  }

  function Step(plan: Plan, s: State, a: Action): State
  {
    match a
    case Launch(seed, resume, skipEvents, withBots) =>
      if s.process.Some? then s
      else
        var mem := LoadCheckpoint(s.file, seed);
        s.(process := Some(Process(mem, s.nextGen, resume, skipEvents, withBots, AtPhase(0))), nextGen := s.nextGen + 1)
    case Crash => Exit(s)
    case CopySlice(w) => if s.process.Some? then CopyStep(plan, s, s.process.value, w) else s
    case Advance => if s.process.Some? then AdvanceStep(plan, s, s.process.value) else s
  }

  /** One worker commits its next day slice. */
  function CopyStep(plan: Plan, s: State, p: Process, w: nat): State {
    match p.stage
    case CopyingEvents(progress) =>
      if w < |progress| && progress[w] < plan.slices(p.gen, w) then
        Move(s.(events := s.events + SliceRows(plan, p.gen, w, progress[w])), p,
             CopyingEvents(progress[w := progress[w] + 1]))
      else s
    case _ => s
  }

  function AdvanceStep(plan: Plan, s: State, p: Process): State
  {
    match p.stage
    case AtPhase(i) =>
      if i >= PHASES || (i == FIRST_SKIPPABLE && p.skipEvents) || (i == BOTS && !p.withBots) then Exit(s)
      else if ShouldSkip(p.mem, i, p.resume) then Move(s, p, AtPhase(i + 1))
      else Mark(s, p, i, InProgress,
                if i < EVENTS then SeedingTables(i) else if i == EVENTS then SeedingEvents else SeedingBots(0))
    case SeedingTables(i) => Return(s, p, i)
    case SeedingEvents =>
      Move(s.(events := RealRows(s.events)), p, CopyingEvents(seq(plan.workers(p.gen), i => 0)))
    case CopyingEvents(progress) =>
      if forall w :: 0 <= w < |progress| ==> progress[w] >= plan.slices(p.gen, w) then Return(s, p, EVENTS) else s
    case SeedingBots(day) =>
      if day < plan.botDays(p.gen) then
        Move(s.(events := s.events + BotRows(plan, p.gen, day)), p, SeedingBots(day + 1))
      else Return(s, p, BOTS)
    case Returned(i) => if i < PHASES then Mark(s, p, i, Done, AtPhase(i + 1)) else s
  }

  // ---------------------------------------------------------------------------
  // The invariant

  /** A checkpoint the machine can have written: done phases have returned under its seed, and a
      done events phase means one generation's rows. */
  ghost predicate CheckpointOk(plan: Plan, s: State, c: Checkpoint) {
    && (forall i: nat :: i < PHASES && c.status[i] == Done ==> (c.seed, i) in s.returned)
    && (c.status[EVENTS] == Done ==> exists g :: HumanRowsAre(plan, s.events, g))
  }

  ghost predicate StageOk(plan: Plan, s: State, p: Process)
  {
    match p.stage
    case AtPhase(i) => true
    case SeedingTables(i) => i < EVENTS && p.mem.status[i] == InProgress
    case SeedingEvents => p.mem.status[EVENTS] == InProgress
    case CopyingEvents(progress) =>
      && p.mem.status[EVENTS] == InProgress
      && |progress| == plan.workers(p.gen)
      && (forall w :: 0 <= w < |progress| ==> progress[w] <= plan.slices(p.gen, w))
      && HumanRowsCommitted(plan, s.events, p.gen, progress) && NoBotRows(s.events)
    case SeedingBots(_) => p.mem.status[BOTS] == InProgress
    case Returned(i) =>
      && i < PHASES && p.mem.status[i] == InProgress && (p.mem.seed, i) in s.returned
      && (i == EVENTS ==> HumanRowsAre(plan, s.events, p.gen) && NoBotRows(s.events))
  }

  /** The running process works on what the file says, or on a fresh checkpoint not yet saved. */
  ghost predicate InStep(s: State, p: Process) {
    || s.file == Some(p.mem)
    || (p.stage == AtPhase(0) && p.mem == FreshCheckpoint(p.mem.seed)
        && !(s.file.Some? && s.file.value.seed == p.mem.seed))
  }

  ghost predicate Inv(plan: Plan, s: State) {
    && (s.file.Some? ==> CheckpointOk(plan, s, s.file.value))
    && (s.process.Some? ==>
          CheckpointOk(plan, s, s.process.value.mem) && InStep(s, s.process.value) && StageOk(plan, s, s.process.value))
  }

  /** No checkpoint and no process yet; the events table holds anything. */
  ghost predicate Init(s: State) {
    s.file == None && s.process == None && s.returned == {}
  }

  function Run(plan: Plan, s: State, actions: seq<Action>): State
    decreases |actions|
  {
    if actions == [] then s else Run(plan, Step(plan, s, actions[0]), actions[1..])
  }

  // ---------------------------------------------------------------------------
  // Row counting

  lemma {:induction false} RealRowsCount(rows: seq<Row>, r: Row)
    ensures multiset(RealRows(rows))[r] == if r.Real? then multiset(rows)[r] else 0
  {
    if rows != [] {
      RealRowsCount(rows[1..], r);
      assert rows == [rows[0]] + rows[1..];
    }
  }

  lemma RealRowsStep(rows: seq<Row>)
    ensures rows == [] ==> RealRows(rows) == []
    ensures rows != [] ==> RealRows(rows) == (if rows[0].Real? then [rows[0]] else []) + RealRows(rows[1..])
  {
  }

  lemma Regroup(a: seq<Row>, b: seq<Row>, c: seq<Row>)
    ensures a + b + c == a + (b + c) && [] + c == c
  {
  }

  lemma {:induction false} RealRowsOfConcat(a: seq<Row>, b: seq<Row>)
    ensures RealRows(a + b) == RealRows(a) + RealRows(b)
  {
    hide RealRows;
    RealRowsStep(a);
    RealRowsStep(a + b);
    if a == [] {
      Regroup([], [], RealRows(b));
      assert a + b == b;
    } else {
      var head := if a[0].Real? then [a[0]] else [];
      assert (a + b)[1..] == a[1..] + b;
      RealRowsOfConcat(a[1..], b);
      Regroup(head, RealRows(a[1..]), RealRows(b));
    }
  }

  lemma {:induction false} RealRowsFixed(rows: seq<Row>)
    ensures RealRows(RealRows(rows)) == RealRows(rows)
  {
    if rows != [] {
      RealRowsFixed(rows[1..]);
      RealRowsOfConcat(if rows[0].Real? then [rows[0]] else [], RealRows(rows[1..]));
    }
  }

  lemma {:induction false} NoRealRows(rows: seq<Row>)
    requires forall i :: 0 <= i < |rows| ==> !rows[i].Real?
    ensures RealRows(rows) == []
  {
    if rows != [] {
      NoRealRows(rows[1..]);
    }
  }

  lemma {:induction false} HumanRun(g: nat, w: nat, k: nat, size: nat, r: Row)
    ensures multiset(seq(size, (n: nat) => Human(g, w, k, n)))[r]
         == if r.Human? && r.gen == g && r.worker == w && r.slice == k && r.n < size then 1 else 0
  {
    var rows := seq(size, (n: nat) => Human(g, w, k, n));
    if size > 0 {
      var init := seq(size - 1, (n: nat) => Human(g, w, k, n));
      assert rows == init + [Human(g, w, k, size - 1)];
      HumanRun(g, w, k, size - 1, r);
    }
  }

  lemma AppendCounts(a: seq<Row>, b: seq<Row>, r: Row)
    ensures multiset(a + b)[r] == multiset(a)[r] + multiset(b)[r]
  {
  }

  lemma NotInCount(rows: seq<Row>, r: Row)
    requires r !in rows
    ensures multiset(rows)[r] == 0
  {
  }

  /** After the clean-up no demo row is left. */
  lemma CleanedRows(plan: Plan, rows: seq<Row>, g: nat, workers: nat)
    ensures HumanRowsCommitted(plan, RealRows(rows), g, seq(workers, i => 0)) && NoBotRows(RealRows(rows))
  {
    forall r: Row | !r.Real? ensures multiset(RealRows(rows))[r] == 0 {
      RealRowsCount(rows, r);
    }
  }

  lemma CopiedRows(plan: Plan, rows: seq<Row>, g: nat, progress: seq<nat>, w: nat)
    requires HumanRowsCommitted(plan, rows, g, progress) && NoBotRows(rows) && w < |progress|
    ensures var rows' := rows + SliceRows(plan, g, w, progress[w]);
            HumanRowsCommitted(plan, rows', g, progress[w := progress[w] + 1]) && NoBotRows(rows')
  {
    var slice := SliceRows(plan, g, w, progress[w]);
    forall r: Row
      ensures multiset(rows + slice)[r] == multiset(rows)[r] +
              if r.Human? && r.gen == g && r.worker == w && r.slice == progress[w] && r.n < plan.size(g, w, progress[w]) then 1 else 0
    {
      AppendCounts(rows, slice, r);
      HumanRun(g, w, progress[w], plan.size(g, w, progress[w]), r);
    }
  }

  lemma AllCopied(plan: Plan, rows: seq<Row>, g: nat, progress: seq<nat>)
    requires HumanRowsCommitted(plan, rows, g, progress) && |progress| == plan.workers(g)
    requires forall w :: 0 <= w < |progress| ==> progress[w] == plan.slices(g, w)
    ensures HumanRowsAre(plan, rows, g)
  {
    forall r: Row | r.Human? ensures Committed(plan, g, progress, r) <==> Generated(plan, g, r) {
    }
  }

  lemma BotsLeaveHumans(plan: Plan, rows: seq<Row>, g: nat, botGen: nat, day: nat)
    requires HumanRowsAre(plan, rows, g)
    ensures HumanRowsAre(plan, rows + BotRows(plan, botGen, day), g)
  {
    forall r: Row | r.Human? ensures multiset(rows + BotRows(plan, botGen, day))[r] == multiset(rows)[r] {
      AppendCounts(rows, BotRows(plan, botGen, day), r);
      NotInCount(BotRows(plan, botGen, day), r);
    }
  }

  // ---------------------------------------------------------------------------
  // Every step keeps the invariant

  lemma StepKeepsInv(plan: Plan, s: State, a: Action)
    requires Inv(plan, s)
    ensures Inv(plan, Step(plan, s, a))
  {
    hide HumanRowsAre, NoBotRows, HumanRowsCommitted, RealRows, SliceRows, BotRows;
    match a
    case Launch(_, _, _, _) =>
    case Crash =>
    case CopySlice(w) =>
      if s.process.Some? {
        CopyKeepsInv(plan, s, s.process.value, w);
      }
    case Advance =>
      if s.process.Some? {
        AdvanceKeepsInv(plan, s, s.process.value);
      }
  }

  lemma CopyKeepsInv(plan: Plan, s: State, p: Process, w: nat)
    requires Inv(plan, s) && s.process == Some(p)
    ensures Inv(plan, CopyStep(plan, s, p, w))
  {
    hide HumanRowsAre, NoBotRows, HumanRowsCommitted, SliceRows;
    if p.stage.CopyingEvents? && w < |p.stage.progress| {
      CopiedRows(plan, s.events, p.gen, p.stage.progress, w);
    }
  }

  /** Marking keeps what the other phases say. */
  lemma MarkKeepsInv(plan: Plan, s: State, p: Process, phase: nat, status: Status, stage: Stage)
    requires CheckpointOk(plan, s, p.mem) && phase < PHASES
    requires status == Done ==> (p.mem.seed, phase) in s.returned
    requires status == Done && phase == EVENTS ==> exists g :: HumanRowsAre(plan, s.events, g)
    requires StageOk(plan, Mark(s, p, phase, status, stage), Mark(s, p, phase, status, stage).process.value)
    ensures Inv(plan, Mark(s, p, phase, status, stage))
  {
    hide HumanRowsAre, NoBotRows, HumanRowsCommitted, StageOk;
  }

  /** Moving on without touching the checkpoint. */
  lemma MoveKeepsInv(plan: Plan, s: State, s': State, p: Process, stage: Stage)
    requires Inv(plan, s) && s.process == Some(p)
    requires s'.file == s.file && s'.process == Some(p.(stage := stage)) && s.returned <= s'.returned
    requires s.file == Some(p.mem)
    requires p.mem.status[EVENTS] == Done ==> exists g :: HumanRowsAre(plan, s'.events, g)
    requires StageOk(plan, s', p.(stage := stage))
    ensures Inv(plan, s')
  {
    hide HumanRowsAre, NoBotRows, HumanRowsCommitted, StageOk;
  }

  lemma WorkingMeansSaved(plan: Plan, s: State, p: Process)
    requires Inv(plan, s) && s.process == Some(p) && !p.stage.AtPhase?
    ensures s.file == Some(p.mem)
  {
    hide HumanRowsAre, NoBotRows, HumanRowsCommitted, StageOk, CheckpointOk;
  }

  lemma PhaseKeepsInv(plan: Plan, s: State, p: Process, i: nat)
    requires Inv(plan, s) && s.process == Some(p) && p.stage == AtPhase(i)
    ensures Inv(plan, AdvanceStep(plan, s, p))
  {
    hide HumanRowsAre, NoBotRows, HumanRowsCommitted;
    if !(i >= PHASES || (i == FIRST_SKIPPABLE && p.skipEvents) || (i == BOTS && !p.withBots) || ShouldSkip(p.mem, i, p.resume)) {
      MarkKeepsInv(plan, s, p, i, InProgress,
        if i < EVENTS then SeedingTables(i) else if i == EVENTS then SeedingEvents else SeedingBots(0));
    }
  }

  lemma CopyingEndKeepsInv(plan: Plan, s: State, p: Process, progress: seq<nat>)
    requires Inv(plan, s) && s.process == Some(p) && p.stage == CopyingEvents(progress)
    ensures Inv(plan, AdvanceStep(plan, s, p))
  {
    hide HumanRowsAre, NoBotRows, HumanRowsCommitted;
    WorkingMeansSaved(plan, s, p);
    if forall w :: 0 <= w < |progress| ==> progress[w] >= plan.slices(p.gen, w) {
      AllCopied(plan, s.events, p.gen, progress);
      MoveKeepsInv(plan, s, Return(s, p, EVENTS), p, Returned(EVENTS));
    }
  }

  lemma BotsKeepInv(plan: Plan, s: State, p: Process, day: nat)
    requires Inv(plan, s) && s.process == Some(p) && p.stage == SeedingBots(day)
    ensures Inv(plan, AdvanceStep(plan, s, p))
  {
    hide HumanRowsAre, NoBotRows, HumanRowsCommitted, BotRows;
    WorkingMeansSaved(plan, s, p);
    var stage := if day < plan.botDays(p.gen) then SeedingBots(day + 1) else Returned(BOTS);
    if p.mem.status[EVENTS] == Done {
      var g :| HumanRowsAre(plan, s.events, g);
      BotsLeaveHumans(plan, s.events, g, p.gen, day);
    }
    MoveKeepsInv(plan, s, AdvanceStep(plan, s, p), p, stage);
  }

  lemma AdvanceKeepsInv(plan: Plan, s: State, p: Process)
    requires Inv(plan, s) && s.process == Some(p)
    ensures Inv(plan, AdvanceStep(plan, s, p))
  {
    hide HumanRowsAre, NoBotRows, HumanRowsCommitted, RealRows, BotRows;
    match p.stage
    case AtPhase(i) => PhaseKeepsInv(plan, s, p, i);
    case SeedingTables(i) =>
      WorkingMeansSaved(plan, s, p);
      MoveKeepsInv(plan, s, Return(s, p, i), p, Returned(i));
    case SeedingEvents =>
      WorkingMeansSaved(plan, s, p);
      CleanedRows(plan, s.events, p.gen, plan.workers(p.gen));
      MoveKeepsInv(plan, s, AdvanceStep(plan, s, p), p, CopyingEvents(seq(plan.workers(p.gen), i => 0)));
    case CopyingEvents(progress) => CopyingEndKeepsInv(plan, s, p, progress);
    case SeedingBots(day) => BotsKeepInv(plan, s, p, day);
    case Returned(i) => MarkKeepsInv(plan, s, p, i, Done, AtPhase(i + 1));
  }

  // ---------------------------------------------------------------------------
  // Main results, over every sequence of launches, steps and crashes

  lemma InitInv(plan: Plan, s: State)
    requires Init(s)
    ensures Inv(plan, s)
  {
  }

  lemma {:induction false} RunKeepsInv(plan: Plan, s: State, actions: seq<Action>)
    requires Inv(plan, s)
    ensures Inv(plan, Run(plan, s, actions))
    decreases |actions|
  {
    hide Inv, Step;
    if actions != [] {
      StepKeepsInv(plan, s, actions[0]);
      RunKeepsInv(plan, Step(plan, s, actions[0]), actions[1..]);
    }
  }

  /** A phase stands as done in the file only if its seeding has returned under that seed; and a
      done events phase means the human demo rows are one generation's, each once. */
  lemma {:induction false} DoneIsEarned(plan: Plan, s: State, actions: seq<Action>, phase: nat)
    requires Init(s) && phase < PHASES
    ensures Inv(plan, s)
    ensures var s' := Run(plan, s, actions);
            s'.file.Some? && s'.file.value.status[phase] == Done ==>
              && (s'.file.value.seed, phase) in s'.returned
              && (phase == EVENTS ==> exists g :: HumanRowsAre(plan, s'.events, g))
  {
    hide HumanRowsAre, Run;
    InitInv(plan, s);
    RunKeepsInv(plan, s, actions);
  }

  ghost predicate EventsDone(s: State) {
    s.file.Some? && s.file.value.status[EVENTS] == Done
  }

  /** Only the running process, its own events seeded, marks the events phase done. */
  lemma EventsCloseExactlyHere(plan: Plan, s: State, a: Action)
    requires Inv(plan, s) && !EventsDone(s) && EventsDone(Step(plan, s, a))
    ensures a == Advance && s.process.Some? && s.process.value.stage == Returned(EVENTS)
    ensures Step(plan, s, a).events == s.events
  {
    hide HumanRowsAre, NoBotRows, HumanRowsCommitted, CheckpointOk;
  }

  /** Whichever step of whichever run makes the events phase done, and whatever partial commits
      came before, the demo-tagged rows of the table are then exactly the running generation's:
      its human rows once each, and no bot rows. */
  lemma {:induction false} EventsDoneMeansOneGeneration(plan: Plan, start: State, actions: seq<Action>, a: Action)
    requires Init(start)
    ensures var s := Run(plan, start, actions);
            var s' := Step(plan, s, a);
            !EventsDone(s) && EventsDone(s') ==>
              s.process.Some?
              && forall r: Row :: (!r.Real? ==>
                   multiset(s'.events)[r] == if Generated(plan, s.process.value.gen, r) then 1 else 0)
  {
    hide Run, Step, EventsDone;
    InitInv(plan, start);
    RunKeepsInv(plan, start, actions);
    var s := Run(plan, start, actions);
    if !EventsDone(s) && EventsDone(Step(plan, s, a)) {
      EventsCloseExactlyHere(plan, s, a);
      OneGeneration(plan, s, s.process.value);
    }
  }

  lemma OneGeneration(plan: Plan, s: State, p: Process)
    requires Inv(plan, s) && s.process == Some(p) && p.stage == Returned(EVENTS)
    ensures forall r: Row :: (!r.Real? ==>
              multiset(s.events)[r] == if Generated(plan, p.gen, r) then 1 else 0)
  {
    forall r: Row | !r.Real? ensures multiset(s.events)[r] == if Generated(plan, p.gen, r) then 1 else 0 {
      if r.Bot? {
        assert !Generated(plan, p.gen, r);
      }
    }
  }

  lemma StepKeepsRealRows(plan: Plan, s: State, a: Action)
    requires Inv(plan, s)
    ensures RealRows(Step(plan, s, a).events) == RealRows(s.events)
  {
    hide HumanRowsAre, NoBotRows, HumanRowsCommitted, RealRows;
    if s.process.Some? {
      var p := s.process.value;
      if a.CopySlice? && p.stage.CopyingEvents? && a.worker < |p.stage.progress| {
        var slice := SliceRows(plan, p.gen, a.worker, p.stage.progress[a.worker]);
        NoRealRows(slice);
        RealRowsOfConcat(s.events, slice);
      } else if a.Advance? && p.stage.SeedingBots? {
        NoRealRows(BotRows(plan, p.gen, p.stage.day));
        RealRowsOfConcat(s.events, BotRows(plan, p.gen, p.stage.day));
      } else {
        RealRowsFixed(s.events);
      }
    }
  }

  /** Rows that are not demo rows stay as they are, in their order. */
  lemma {:induction false} RealRowsUntouched(plan: Plan, s: State, actions: seq<Action>)
    requires Inv(plan, s)
    ensures RealRows(Run(plan, s, actions).events) == RealRows(s.events)
    decreases |actions|
  {
    hide Inv, Step, RealRows;
    if actions != [] {
      StepKeepsInv(plan, s, actions[0]);
      StepKeepsRealRows(plan, s, actions[0]);
      RealRowsUntouched(plan, Step(plan, s, actions[0]), actions[1..]);
    }
  }

  // ---------------------------------------------------------------------------
  // Runs that resume

  /** Every launch of the history resumes the same seed. */
  predicate Resumes(actions: seq<Action>, seed: int) {
    forall i :: 0 <= i < |actions| && actions[i].Launch? ==> actions[i].seed == seed && actions[i].resume
  }

  ghost predicate CompletedOk(c: Checkpoint) {
    c.completed ==> AllDone(c)
  }

  ghost predicate Resuming(plan: Plan, s: State, seed: int) {
    && Inv(plan, s)
    && (s.file.Some? ==> s.file.value.seed == seed && CompletedOk(s.file.value))
    && (s.process.Some? ==>
          s.process.value.resume && s.process.value.mem.seed == seed && CompletedOk(s.process.value.mem))
  }

  /** Done phases of the file, if there is one. */
  predicate FileDone(s: State, phase: nat) {
    s.file.Some? && phase < PHASES && s.file.value.status[phase] == Done
  }

  lemma MarkAndCompletion(c: Checkpoint, phase: nat, status: Status)
    requires phase < PHASES && CompletedOk(c)
    ensures CompletedOk(MarkPhase(c, phase, status)) <==> status == Done || !c.completed
  {
    var marked := MarkPhase(c, phase, status);
    assert marked.status[phase] == status;
    assert forall i :: 0 <= i < PHASES && i != phase ==> marked.status[i] == c.status[i];
  }

  /** A process that has marked a phase is not working on a completed checkpoint. */
  lemma ResumingAdvance(plan: Plan, s: State, p: Process, phase: nat)
    requires Inv(plan, s) && s.process == Some(p) && p.resume && CompletedOk(p.mem)
    ensures var s' := AdvanceStep(plan, s, p);
            && (s'.file == s.file || (s'.file.Some? && s'.file.value.seed == p.mem.seed && CompletedOk(s'.file.value)))
            && (s'.process.Some? ==>
                  s'.process.value.resume && s'.process.value.mem.seed == p.mem.seed && CompletedOk(s'.process.value.mem))
            && (s.file.Some? && s.file.value.seed == p.mem.seed && FileDone(s, phase) ==> FileDone(s', phase))
  {
    hide HumanRowsAre, NoBotRows, HumanRowsCommitted, RealRows, BotRows, CompletedOk;
    match p.stage
    case AtPhase(i) =>
      if i < PHASES && !ShouldSkip(p.mem, i, p.resume) {
        MarkAndCompletion(p.mem, i, InProgress);
        if p.mem.completed {
          ResumedCompletion(p.mem);
        }
      }
    case Returned(i) => MarkAndCompletion(p.mem, i, Done);
    case _ =>
  }

  lemma ResumedCompletion(c: Checkpoint)
    requires CompletedOk(c) && c.completed
    ensures forall i :: 0 <= i < PHASES ==> ShouldSkip(c, i, true)
  {
  }

  lemma ResumingStep(plan: Plan, s: State, a: Action, seed: int, phase: nat)
    requires Resuming(plan, s, seed) && Resumes([a], seed)
    ensures Resuming(plan, Step(plan, s, a), seed)
    ensures FileDone(s, phase) ==> FileDone(Step(plan, s, a), phase)
  {
    hide Inv, AdvanceStep, SliceRows, AllDone;
    StepKeepsInv(plan, s, a);
    assert [a][0] == a;
    if a.Advance? && s.process.Some? {
      ResumingAdvance(plan, s, s.process.value, phase);
    }
  }

  /** Over resuming runs of one seed, crashing anywhere: a phase once done stays done, and a
      completion time is only ever present when all seven phases are done. */
  lemma {:induction false} DoneNeverReverts(plan: Plan, s: State, actions: seq<Action>, seed: int, phase: nat)
    requires Resuming(plan, s, seed) && Resumes(actions, seed)
    ensures Resuming(plan, Run(plan, s, actions), seed)
    ensures FileDone(s, phase) ==> FileDone(Run(plan, s, actions), phase)
    decreases |actions|
  {
    hide Resuming, Step, FileDone;
    assert forall i :: 0 <= i < |actions| && actions[i].Launch? ==> actions[i].resume;
    if actions != [] {
      ResumingStep(plan, s, actions[0], seed, phase);
      DoneNeverReverts(plan, Step(plan, s, actions[0]), actions[1..], seed, phase);
    }
  }

  /** The saved completion time outlives its meaning in one case only: a run without --resume
      starts a phase over a completed checkpoint. */
  lemma CompletionBreaksExactlyWhen(plan: Plan, s: State, p: Process)
    requires Inv(plan, s) && s.process == Some(p) && CompletedOk(p.mem)
    requires s.file.Some? ==> CompletedOk(s.file.value)
    ensures var s' := Step(plan, s, Advance);
            (s'.file.Some? && !CompletedOk(s'.file.value)) <==>
              && p.mem.completed && !p.resume && p.stage.AtPhase? && p.stage.phase < PHASES
              && !(p.stage.phase == FIRST_SKIPPABLE && p.skipEvents) && !(p.stage.phase == BOTS && !p.withBots)
  {
    hide HumanRowsAre, NoBotRows, HumanRowsCommitted, RealRows, BotRows, CompletedOk;
    match p.stage
    case AtPhase(i) =>
      if i < PHASES && !ShouldSkip(p.mem, i, p.resume) {
        MarkAndCompletion(p.mem, i, InProgress);
      }
      if p.mem.completed {
        ResumedCompletion(p.mem);
      }
    case Returned(i) => MarkAndCompletion(p.mem, i, Done);
    case _ =>
  }

  // ---------------------------------------------------------------------------
  // The seed of a launch

  function PhaseOf(stage: Stage): nat {
    match stage
    case AtPhase(i) => i
    case SeedingTables(i) => i
    case SeedingEvents => EVENTS
    case CopyingEvents(_) => EVENTS
    case SeedingBots(_) => BOTS
    case Returned(i) => i
  }

  /** A launch that starts a process starts it at the first phase, with its own flags and a
      checkpoint of its own seed: what the file says when it is of that seed, and otherwise one
      in which nothing is done. It touches neither the file nor the tables. */
  lemma LaunchStartsOnItsSeed(plan: Plan, s: State, seed: int, resume: bool, skipEvents: bool, withBots: bool)
    requires s.process == None
    ensures var s' := Step(plan, s, Launch(seed, resume, skipEvents, withBots));
            && s'.process.Some? && s'.file == s.file && s'.events == s.events && s'.returned == s.returned
            && (var p := s'.process.value;
                && p.mem.seed == seed && p.stage == AtPhase(0) && p.gen == s.nextGen && s'.nextGen == s.nextGen + 1
                && p.resume == resume && p.skipEvents == skipEvents && p.withBots == withBots
                && (forall k :: 0 <= k < 7 ==>
                      (p.mem.status[k] == Done <==>
                       s.file.Some? && s.file.value.seed == seed && s.file.value.status[k] == Done))
                && (p.mem.completed <==> s.file.Some? && s.file.value.seed == seed && s.file.value.completed))
  {
  }

  /** Nothing at or ahead of the process's place is done. */
  predicate NothingAhead(p: Process) {
    forall k :: PhaseOf(p.stage) <= k < PHASES ==> p.mem.status[k] != Done
  }

  predicate SameRun(p: Process, q: Process) {
    p.mem.seed == q.mem.seed && p.gen == q.gen && p.resume == q.resume && p.skipEvents == q.skipEvents
    && p.withBots == q.withBots
  }

  lemma MarkedIs(c: Checkpoint, phase: nat, status: Status)
    requires phase < PHASES
    ensures MarkPhase(c, phase, status).seed == c.seed
    ensures forall k :: 0 <= k < PHASES ==> MarkPhase(c, phase, status).status[k] == if k == phase then status else c.status[k]
  {
  }

  /** What a step of a running process keeps. */
  ghost predicate KeepsRun(s: State, s': State) {
    s.process.Some? && s'.process.Some? ==>
      var p := s.process.value;
      && SameRun(p, s'.process.value)
      && (s'.file == s.file || (s'.file.Some? && s'.file.value.seed == p.mem.seed))
      && (NothingAhead(p) ==> NothingAhead(s'.process.value))
  }

  lemma PhaseKeepsRun(plan: Plan, s: State, p: Process, i: nat)
    requires s.process == Some(p) && (p.stage == AtPhase(i) || p.stage == Returned(i))
    ensures KeepsRun(s, AdvanceStep(plan, s, p))
  {
    hide MarkPhase;
    if i < PHASES {
      MarkedIs(p.mem, i, if p.stage == AtPhase(i) then InProgress else Done);
    }
  }

  lemma WorkKeepsRun(plan: Plan, s: State, p: Process)
    requires s.process == Some(p) && !p.stage.AtPhase? && !p.stage.Returned?
    ensures KeepsRun(s, AdvanceStep(plan, s, p))
  {
    hide RealRows, BotRows;
  }

  lemma CopyKeepsRun(plan: Plan, s: State, p: Process, w: nat)
    requires s.process == Some(p)
    ensures KeepsRun(s, CopyStep(plan, s, p, w))
  {
    hide SliceRows;
  }

  lemma SameRunStep(plan: Plan, s: State, a: Action)
    ensures KeepsRun(s, Step(plan, s, a))
  {
    hide AdvanceStep, CopyStep;
    if s.process.Some? {
      var p := s.process.value;
      if a.CopySlice? {
        CopyKeepsRun(plan, s, p, a.worker);
      } else if a.Advance? {
        if p.stage.AtPhase? || p.stage.Returned? {
          PhaseKeepsRun(plan, s, p, p.stage.phase);
        } else {
          WorkKeepsRun(plan, s, p);
        }
      }
    }
  }

  /** The launch at step n starts a process that is still there after m steps. */
  ghost predicate RunsFrom(plan: Plan, s: State, actions: seq<Action>, n: nat, m: nat) {
    && n < m <= |actions| && actions[n].Launch? && Run(plan, s, actions[..n]).process == None
    && forall j: nat :: n < j <= m ==> Run(plan, s, actions[..j]).process.Some?
  }

  lemma {:induction false} RunKeepsSeed(plan: Plan, s: State, actions: seq<Action>, n: nat, m: nat)
    requires RunsFrom(plan, s, actions, n, m)
    ensures var t, u := Run(plan, s, actions[..n + 1]), Run(plan, s, actions[..m]);
            && SameRun(t.process.value, u.process.value)
            && (u.file == t.file || (u.file.Some? && u.file.value.seed == t.process.value.mem.seed))
            && (NothingAhead(t.process.value) ==> NothingAhead(u.process.value))
    decreases m
  {
    hide Run, Step, NothingAhead;
    if m > n + 1 {
      RunKeepsSeed(plan, s, actions, n, m - 1);
      RunTo(plan, s, actions, m - 1);
      SameRunStep(plan, Run(plan, s, actions[..m - 1]), actions[m - 1]);
    }
  }

  /** Over every run: a process works under the seed and flags it was launched with; all it saves
      carries that seed; and if the file was of another seed at its launch, it skips no phase, so
      that on reaching one it marks it in progress under the new seed. */
  lemma {:induction false} LaunchKeepsItsSeed(plan: Plan, s: State, actions: seq<Action>, n: nat, m: nat)
    requires RunsFrom(plan, s, actions, n, m)
    ensures var before, now, launch := Run(plan, s, actions[..n]), Run(plan, s, actions[..m]), actions[n];
            var p := now.process.value;
            && p.mem.seed == launch.seed && p.resume == launch.resume && p.skipEvents == launch.skipEvents
            && p.withBots == launch.withBots && p.gen == before.nextGen
            && (now.file == before.file || (now.file.Some? && now.file.value.seed == launch.seed))
            && (p.stage.AtPhase? && p.stage.phase < 7 && !(before.file.Some? && before.file.value.seed == launch.seed)
                && !(p.stage.phase == 3 && launch.skipEvents) && !(p.stage.phase == 6 && !launch.withBots) ==>
                  var next := Step(plan, now, Advance);
                  next.file.Some? && next.file.value.seed == launch.seed
                  && next.file.value.status[p.stage.phase] == InProgress)
  {
    hide Run;
    var before, launch := Run(plan, s, actions[..n]), actions[n];
    LaunchStartsOnItsSeed(plan, before, launch.seed, launch.resume, launch.skipEvents, launch.withBots);
    RunTo(plan, s, actions, n);
    RunKeepsSeed(plan, s, actions, n, m);
  }

  // ---------------------------------------------------------------------------
  // Any launches at all

  /** A run without --resume, launched over the completed checkpoint of its seed, takes its
      first step. */
  predicate RestartsCompleted(s: State, a: Action) {
    a == Advance && s.process.Some? && s.process.value.stage == AtPhase(0)
    && !s.process.value.resume && s.process.value.mem.completed
  }

  /** The file holds a completion time beside an unfinished phase. */
  ghost predicate Stale(s: State) {
    s.file.Some? && !CompletedOk(s.file.value)
  }

  /** The bot phase is the last, so it is done only in a completed checkpoint. */
  predicate BotsLast(c: Checkpoint) {
    c.status[BOTS] == Done ==> c.completed
  }

  /** The phases behind this stage are done. */
  predicate DoneBehind(c: Checkpoint, stage: Stage) {
    forall k :: 0 <= k < PhaseOf(stage) && k < PHASES ==> c.status[k] == Done
  }

  ghost predicate CheckpointClean(c: Checkpoint) {
    CompletedOk(c) && BotsLast(c)
  }

  ghost predicate ProcessClean(p: Process) {
    && CheckpointClean(p.mem) && DoneBehind(p.mem, p.stage)
    && (p.mem.completed && !p.resume ==> p.stage == AtPhase(0) || (p.stage.AtPhase? && p.stage.phase >= PHASES))
    && (p.mem.completed && p.resume ==> p.stage.AtPhase?)
  }

  /** Neither the file nor the process has outlived a completion. */
  ghost predicate FilesClean(s: State) {
    (s.file.Some? ==> CheckpointClean(s.file.value)) && (s.process.Some? ==> ProcessClean(s.process.value))
  }

  /** No run has restarted a completed checkpoint so far. */
  ghost predicate Clean(plan: Plan, s: State) {
    Inv(plan, s) && FilesClean(s)
  }

  lemma StartKeepsClean(c: Checkpoint, phase: nat)
    requires phase < PHASES && CheckpointClean(c) && !c.completed
    ensures CheckpointClean(MarkPhase(c, phase, InProgress)) && !MarkPhase(c, phase, InProgress).completed
    ensures forall k :: 0 <= k < PHASES && k != phase ==> MarkPhase(c, phase, InProgress).status[k] == c.status[k]
  {
  }

  lemma CloseKeepsClean(c: Checkpoint, phase: nat)
    requires phase < PHASES && CheckpointClean(c) && !c.completed
    requires forall k :: 0 <= k < phase ==> c.status[k] == Done
    ensures var c' := MarkPhase(c, phase, Done);
            && CheckpointClean(c') && (c'.completed ==> phase == BOTS)
            && forall k :: 0 <= k <= phase ==> c'.status[k] == Done
  {
    var c' := MarkPhase(c, phase, Done);
    assert forall k :: 0 <= k < PHASES && k != phase ==> c'.status[k] == c.status[k];
    assert c.status[BOTS] != Done;
    if phase == BOTS {
      assert AllDone(c.(status := c.status[phase := Done]));
    } else {
      assert c'.status[BOTS] != Done;
    }
  }

  lemma CleanAdvance(plan: Plan, s: State, p: Process)
    requires Clean(plan, s) && s.process == Some(p) && !RestartsCompleted(s, Advance)
    ensures FilesClean(AdvanceStep(plan, s, p))
  {
    hide HumanRowsAre, NoBotRows, HumanRowsCommitted, CheckpointOk, RealRows, BotRows, CheckpointClean, MarkPhase,
         FilesClean;
    match p.stage
    case AtPhase(i) => CleanAtPhase(plan, s, p, i);
    case Returned(i) => CleanReturned(plan, s, p, i);
    case _ => CleanWorking(plan, s, p);
  }

  lemma CleanAtPhase(plan: Plan, s: State, p: Process, i: nat)
    requires FilesClean(s) && s.process == Some(p) && p.stage == AtPhase(i) && !RestartsCompleted(s, Advance)
    ensures FilesClean(AdvanceStep(plan, s, p))
  {
    hide CheckpointClean, MarkPhase;
    if p.mem.completed {
      CleanIsDone(p.mem);
    } else if i < PHASES {
      StartKeepsClean(p.mem, i);
    }
  }

  lemma CleanReturned(plan: Plan, s: State, p: Process, i: nat)
    requires FilesClean(s) && s.process == Some(p) && p.stage == Returned(i)
    ensures FilesClean(AdvanceStep(plan, s, p))
  {
    hide CheckpointClean, MarkPhase;
    if i < PHASES {
      CloseKeepsClean(p.mem, i);
    }
  }

  lemma CleanWorking(plan: Plan, s: State, p: Process)
    requires FilesClean(s) && s.process == Some(p) && !p.stage.AtPhase? && !p.stage.Returned?
    ensures FilesClean(AdvanceStep(plan, s, p))
  {
    hide CheckpointClean, RealRows, BotRows;
  }

  lemma CleanIsDone(c: Checkpoint)
    requires CheckpointClean(c) && c.completed
    ensures forall i :: 0 <= i < PHASES ==> c.status[i] == Done
  {
  }

  lemma CleanStep(plan: Plan, s: State, a: Action)
    requires Clean(plan, s) && !RestartsCompleted(s, a)
    ensures Clean(plan, Step(plan, s, a))
  {
    hide Inv, AdvanceStep, SliceRows, AllDone;
    StepKeepsInv(plan, s, a);
    if a.Advance? && s.process.Some? {
      CleanAdvance(plan, s, s.process.value);
    }
  }

  lemma RestartIsStale(plan: Plan, s: State, a: Action)
    requires RestartsCompleted(s, a)
    ensures Stale(Step(plan, s, a))
  {
    var c := Step(plan, s, a).file.value;
    assert c.status[0] == InProgress;
  }

  lemma RunLast(plan: Plan, s: State, actions: seq<Action>)
    requires actions != []
    ensures var m := |actions| - 1; Run(plan, s, actions) == Step(plan, Run(plan, s, actions[..m]), actions[m])
    decreases |actions|
  {
    hide Step;
    var m := |actions| - 1;
    if m == 0 {
      assert actions[1..] == [];
    } else {
      RunLast(plan, Step(plan, s, actions[0]), actions[1..]);
      assert actions[1..][..m - 1] == actions[..m][1..];
    }
  }

  /** Up to this point of the run, no launch has restarted a completed checkpoint. */
  ghost predicate NoRestart(plan: Plan, s: State, actions: seq<Action>) {
    forall n: nat :: n < |actions| ==> !RestartsCompleted(Run(plan, s, actions[..n]), actions[n])
  }

  lemma {:induction false} NoRestartIsClean(plan: Plan, s: State, actions: seq<Action>)
    requires Init(s) && NoRestart(plan, s, actions)
    ensures Clean(plan, Run(plan, s, actions))
    decreases |actions|
  {
    hide Inv, Step, RestartsCompleted;
    InitInv(plan, s);
    if actions != [] {
      var m := |actions| - 1;
      RunLast(plan, s, actions);
      assert NoRestart(plan, s, actions[..m]) by {
        assert forall n: nat :: n < m ==> actions[..m][..n] == actions[..n] && actions[..m][n] == actions[n];
      }
      NoRestartIsClean(plan, s, actions[..m]);
      CleanStep(plan, Run(plan, s, actions[..m]), actions[m]);
    }
  }

  /** At step n a run without --resume is launched over the completed checkpoint of its seed, and
      at step m it takes its first step. */
  ghost predicate Restarts(plan: Plan, s: State, actions: seq<Action>, n: nat, m: nat) {
    && n < m < |actions| && actions[n].Launch? && !actions[n].resume && actions[m] == Advance
    && (var before := Run(plan, s, actions[..n]);
        before.process == None && before.file.Some? && before.file.value.seed == actions[n].seed
        && before.file.value.completed)
    && forall j: nat :: n < j < m ==> actions[j].CopySlice? || actions[j].Launch?
  }

  lemma StartStep(plan: Plan, s: State, a: Action)
    requires Step(plan, s, a).process.Some? && Step(plan, s, a).process.value.stage == AtPhase(0)
    ensures Step(plan, s, a).file == s.file
    ensures (s.process == Step(plan, s, a).process && (a.CopySlice? || a.Launch?))
            || (s.process == None && a.Launch?)
  {
    hide SliceRows, BotRows, RealRows, MarkPhase;
  }

  /** A process that has not taken a step was launched, and nothing has happened to it since. */
  lemma {:induction false} LaunchOf(plan: Plan, s: State, actions: seq<Action>, m: nat) returns (n: nat)
    requires Init(s) && m <= |actions|
    requires var t := Run(plan, s, actions[..m]); t.process.Some? && t.process.value.stage == AtPhase(0)
    ensures n < m && actions[n].Launch? && Run(plan, s, actions[..n]).process == None
    ensures Run(plan, s, actions[..n]).file == Run(plan, s, actions[..m]).file
    ensures Run(plan, s, actions[..n + 1]).process == Run(plan, s, actions[..m]).process
    ensures forall j: nat :: n < j < m ==> actions[j].CopySlice? || actions[j].Launch?
    decreases m
  {
    hide Step;
    NothingRunYet(plan, s, actions);
    RunTo(plan, s, actions, m - 1);
    StartStep(plan, Run(plan, s, actions[..m - 1]), actions[m - 1]);
    if Run(plan, s, actions[..m - 1]).process == None {
      n := m - 1;
    } else {
      n := LaunchOf(plan, s, actions, m - 1);
    }
  }

  lemma NothingRunYet(plan: Plan, s: State, actions: seq<Action>)
    ensures Run(plan, s, actions[..0]) == s
  {
  }

  lemma RestartWasLaunched(plan: Plan, s: State, actions: seq<Action>, m: nat)
    requires Init(s) && m < |actions| && RestartsCompleted(Run(plan, s, actions[..m]), actions[m])
    ensures exists n: nat :: Restarts(plan, s, actions, n, m)
  {
    hide Run, Step;
    var n := LaunchOf(plan, s, actions, m);
    var before, launch := Run(plan, s, actions[..n]), actions[n];
    RunTo(plan, s, actions, n);
    LaunchStartsOnItsSeed(plan, before, launch.seed, launch.resume, launch.skipEvents, launch.withBots);
    assert Restarts(plan, s, actions, n, m);
  }

  lemma WaitsToStart(plan: Plan, s: State, a: Action)
    requires s.process.Some? && s.process.value.stage == AtPhase(0) && (a.CopySlice? || a.Launch?)
    ensures Step(plan, s, a) == s
  {
  }

  lemma {:induction false} StillAtStart(plan: Plan, s: State, actions: seq<Action>, n: nat, j: nat)
    requires n < j <= |actions|
    requires var t := Run(plan, s, actions[..n + 1]); t.process.Some? && t.process.value.stage == AtPhase(0)
    requires forall i: nat :: n < i < j ==> actions[i].CopySlice? || actions[i].Launch?
    ensures Run(plan, s, actions[..j]) == Run(plan, s, actions[..n + 1])
    decreases j
  {
    hide Run, Step;
    if j > n + 1 {
      StillAtStart(plan, s, actions, n, j - 1);
      RunTo(plan, s, actions, j - 1);
      WaitsToStart(plan, Run(plan, s, actions[..j - 1]), actions[j - 1]);
    }
  }

  lemma LaunchedIsRestart(plan: Plan, s: State, actions: seq<Action>, n: nat, m: nat)
    requires Restarts(plan, s, actions, n, m)
    ensures RestartsCompleted(Run(plan, s, actions[..m]), actions[m])
  {
    hide Run, Step;
    var before, launch := Run(plan, s, actions[..n]), actions[n];
    LaunchStartsOnItsSeed(plan, before, launch.seed, launch.resume, launch.skipEvents, launch.withBots);
    RunTo(plan, s, actions, n);
    StillAtStart(plan, s, actions, n, m);
  }

  /** Over any launches, of any seeds and flags and crashing anywhere: the file at some moment
      holds a completion time beside an unfinished phase if and only if some run without --resume
      was launched over the completed checkpoint of its seed and took its first step. */
  lemma {:induction false} StaleExactlyWhenRestarted(plan: Plan, s: State, actions: seq<Action>)
    requires Init(s)
    ensures (exists k: nat :: k <= |actions| && Stale(Run(plan, s, actions[..k])))
            <==> (exists n: nat, m: nat :: Restarts(plan, s, actions, n, m))
  {
    hide Inv, Run, Step, Stale, RestartsCompleted, Restarts;
    forall n: nat, m: nat | Restarts(plan, s, actions, n, m)
      ensures m < |actions| && Stale(Run(plan, s, actions[..m + 1]))
    {
      RestartBound(plan, s, actions, n, m);
      LaunchedIsRestart(plan, s, actions, n, m);
      RestartIsStale(plan, Run(plan, s, actions[..m]), actions[m]);
      RunTo(plan, s, actions, m);
    }
    if NoRestart(plan, s, actions) {
      forall k: nat | k <= |actions| ensures !Stale(Run(plan, s, actions[..k])) {
        forall i: nat | i < k ensures actions[..k][..i] == actions[..i] && actions[..k][i] == actions[i] {
        }
        NoRestartIsClean(plan, s, actions[..k]);
        CleanNotStale(plan, Run(plan, s, actions[..k]));
      }
    } else {
      var m: nat :| m < |actions| && RestartsCompleted(Run(plan, s, actions[..m]), actions[m]);
      RestartWasLaunched(plan, s, actions, m);
    }
  }

  lemma RestartBound(plan: Plan, s: State, actions: seq<Action>, n: nat, m: nat)
    requires Restarts(plan, s, actions, n, m)
    ensures m < |actions|
  {
  }

  lemma CleanNotStale(plan: Plan, s: State)
    requires Clean(plan, s)
    ensures !Stale(s)
  {
  }

  /** From a clean start, over resuming runs crashing anywhere, a completion time in the file
      means that all seven phases are done. */
  lemma {:induction false} CompletionMeansAllDone(plan: Plan, s: State, actions: seq<Action>, seed: int)
    requires Init(s) && Resumes(actions, seed)
    ensures var file := Run(plan, s, actions).file;
            file.Some? && file.value.completed ==> AllDone(file.value)
  {
    hide Inv, Run, AllDone;
    InitInv(plan, s);
    DoneNeverReverts(plan, s, actions, seed, 0);
  }

  // ---------------------------------------------------------------------------
  // When a done bot phase still has its rows

  /** The rows that the bot pass of run g writes on its first days are in the table. */
  ghost predicate BotDaysPresent(plan: Plan, rows: seq<Row>, g: nat, days: nat) {
    forall d, n :: 0 <= d < days && 0 <= n < plan.botSize(g, d) ==> Bot(g, d, n) in rows
  }

  ghost predicate BotPassPresent(plan: Plan, rows: seq<Row>, g: nat) {
    BotDaysPresent(plan, rows, g, plan.botDays(g))
  }

  ghost predicate WritesBots(plan: Plan, g: nat) {
    exists d, n :: BotRow(plan, g, d, n)
  }

  predicate BotRow(plan: Plan, g: nat, d: nat, n: nat) {
    d < plan.botDays(g) && n < plan.botSize(g, d)
  }

  /** The step on which the seeding of run g's bots returns. */
  predicate BotsReturn(plan: Plan, s: State, a: Action, g: nat) {
    a == Advance && s.process.Some? && s.process.value.gen == g
    && s.process.value.stage.SeedingBots? && s.process.value.stage.day >= plan.botDays(g)
  }

  /** The step that deletes the demo events before the events phase writes its own. */
  predicate CleansUp(s: State, a: Action) {
    a == Advance && s.process.Some? && s.process.value.stage == SeedingEvents
  }

  /** A bot pass has written the days behind it. */
  ghost predicate BotsUnderWay(plan: Plan, s: State) {
    s.process.Some? && s.process.value.stage.SeedingBots? ==>
      BotDaysPresent(plan, s.events, s.process.value.gen, s.process.value.stage.day)
  }

  /** Run g is over, or past its bot phase. */
  predicate Retired(s: State, g: nat) {
    g < s.nextGen
    && (s.process.Some? && s.process.value.gen == g ==>
          s.process.value.stage == Returned(BOTS)
          || (s.process.value.stage.AtPhase? && s.process.value.stage.phase >= PHASES))
  }

  ghost predicate NoBotsOf(rows: seq<Row>, g: nat) {
    forall d, n :: Bot(g, d, n) !in rows
  }

  lemma OneMoreBotDay(plan: Plan, rows: seq<Row>, g: nat, day: nat)
    requires BotDaysPresent(plan, rows, g, day)
    ensures BotDaysPresent(plan, rows + BotRows(plan, g, day), g, day + 1)
  {
    var more := BotRows(plan, g, day);
    forall d, n | 0 <= d < day + 1 && 0 <= n < plan.botSize(g, d) ensures Bot(g, d, n) in rows + more {
      assert d == day ==> more[n] == Bot(g, d, n);
    }
  }

  lemma RowsGrow(plan: Plan, s: State, a: Action)
    requires !CleansUp(s, a)
    ensures forall r :: r in s.events ==> r in Step(plan, s, a).events
  {
    hide SliceRows, BotRows, RealRows, MarkPhase;
  }

  lemma BotsUnderWayStep(plan: Plan, s: State, a: Action)
    requires BotsUnderWay(plan, s)
    ensures BotsUnderWay(plan, Step(plan, s, a))
  {
    hide SliceRows, BotRows, RealRows, MarkPhase, BotDaysPresent;
    if a == Advance && s.process.Some? {
      var p := s.process.value;
      if p.stage.SeedingBots? {
        OneMoreBotDay(plan, s.events, p.gen, p.stage.day);
      } else if p.stage.AtPhase? {
        NoBotDay(plan, s.events, p.gen);
      }
    }
  }

  lemma NoBotDay(plan: Plan, rows: seq<Row>, g: nat)
    ensures BotDaysPresent(plan, rows, g, 0)
  {
  }

  lemma RetiredStep(plan: Plan, s: State, a: Action, g: nat)
    requires Retired(s, g)
    ensures Retired(Step(plan, s, a), g)
  {
    hide SliceRows, BotRows, RealRows, MarkPhase;
  }

  lemma GoneStep(plan: Plan, s: State, a: Action, g: nat)
    requires Retired(s, g) && (NoBotsOf(s.events, g) || CleansUp(s, a))
    ensures NoBotsOf(Step(plan, s, a).events, g)
  {
    hide MarkPhase;
    if CleansUp(s, a) {
      NoBotsLeft(s.events);
    }
  }

  lemma NoBotsLeft(rows: seq<Row>)
    ensures forall r :: r in RealRows(rows) ==> r.Real?
  {
    forall r | r in RealRows(rows) ensures r.Real? {
      RealRowsCount(rows, r);
      assert r in multiset(RealRows(rows));
    }
  }

  lemma RunTo(plan: Plan, s: State, actions: seq<Action>, n: nat)
    requires n < |actions|
    ensures Run(plan, s, actions[..n + 1]) == Step(plan, Run(plan, s, actions[..n]), actions[n])
  {
    hide Run, Step;
    RunLast(plan, s, actions[..n + 1]);
    assert actions[..n + 1][..n] == actions[..n];
  }

  lemma {:induction false} BotsAlwaysUnderWay(plan: Plan, s: State, actions: seq<Action>, n: nat)
    requires Init(s) && n <= |actions|
    ensures BotsUnderWay(plan, Run(plan, s, actions[..n]))
  {
    hide Step, BotDaysPresent;
    if n > 0 {
      BotsAlwaysUnderWay(plan, s, actions, n - 1);
      BotsUnderWayStep(plan, Run(plan, s, actions[..n - 1]), actions[n - 1]);
      RunTo(plan, s, actions, n - 1);
    }
  }

  lemma GenBelow(plan: Plan, s: State, a: Action)
    requires s.process.Some? ==> s.process.value.gen < s.nextGen
    ensures Step(plan, s, a).process.Some? ==> Step(plan, s, a).process.value.gen < Step(plan, s, a).nextGen
  {
    hide SliceRows, BotRows, RealRows, MarkPhase;
  }

  lemma {:induction false} GensBelow(plan: Plan, s: State, actions: seq<Action>, n: nat)
    requires Init(s) && n <= |actions|
    ensures var s' := Run(plan, s, actions[..n]); s'.process.Some? ==> s'.process.value.gen < s'.nextGen
  {
    hide Step;
    if n > 0 {
      GensBelow(plan, s, actions, n - 1);
      GenBelow(plan, Run(plan, s, actions[..n - 1]), actions[n - 1]);
      RunTo(plan, s, actions, n - 1);
    }
  }

  lemma BotsReturned(plan: Plan, s: State, a: Action, g: nat)
    requires BotsReturn(plan, s, a, g) && BotsUnderWay(plan, s) && g < s.nextGen
    ensures var s' := Step(plan, s, a); s'.events == s.events && Retired(s', g) && BotPassPresent(plan, s'.events, g)
  {
  }

  /** After the pass has returned at step n: all its rows until the first clean-up. */
  lemma {:induction false} StaysPresent(plan: Plan, s: State, actions: seq<Action>, n: nat, j: nat, g: nat)
    requires Init(s) && n < j <= |actions| && BotsReturn(plan, Run(plan, s, actions[..n]), actions[n], g)
    ensures Retired(Run(plan, s, actions[..j]), g)
    ensures (forall k: nat :: n < k < j ==> !CleansUp(Run(plan, s, actions[..k]), actions[k])) ==>
              BotPassPresent(plan, Run(plan, s, actions[..j]).events, g)
    decreases j
  {
    hide Init, Run, Step, BotsReturn, Retired, CleansUp, BotsUnderWay;
    RunTo(plan, s, actions, j - 1);
    var before := Run(plan, s, actions[..j - 1]);
    if j == n + 1 {
      BotsAlwaysUnderWay(plan, s, actions, n);
      GensBelow(plan, s, actions, n);
      ReturningRun(plan, before, actions[n], g);
      BotsReturned(plan, before, actions[n], g);
    } else {
      StaysPresent(plan, s, actions, n, j - 1, g);
      RetiredStep(plan, before, actions[j - 1], g);
      if !CleansUp(before, actions[j - 1]) {
        RowsGrow(plan, before, actions[j - 1]);
      }
    }
  }

  lemma ReturningRun(plan: Plan, s: State, a: Action, g: nat)
    requires BotsReturn(plan, s, a, g)
    ensures s.process.Some? && s.process.value.gen == g
  {
  }

  /** And none of them after a clean-up. */
  lemma {:induction false} StaysGone(plan: Plan, s: State, actions: seq<Action>, n: nat, k: nat, j: nat, g: nat)
    requires Init(s) && n < k < j <= |actions| && BotsReturn(plan, Run(plan, s, actions[..n]), actions[n], g)
    requires CleansUp(Run(plan, s, actions[..k]), actions[k])
    ensures NoBotsOf(Run(plan, s, actions[..j]).events, g)
    decreases j
  {
    hide Init, Run, Step, BotsReturn, Retired, CleansUp, NoBotsOf, BotPassPresent;
    RunTo(plan, s, actions, j - 1);
    StaysPresent(plan, s, actions, n, j - 1, g);
    if k < j - 1 {
      StaysGone(plan, s, actions, n, k, j - 1, g);
    }
    GoneStep(plan, Run(plan, s, actions[..j - 1]), actions[j - 1], g);
  }

  /** Over every run: the rows of a bot pass that returned are all in the table at the end if and
      only if no events phase has cleaned up since. */
  lemma {:induction false} BotRowsStayExactlyWhen(plan: Plan, s: State, actions: seq<Action>, n: nat, g: nat)
    requires Init(s) && n < |actions| && BotsReturn(plan, Run(plan, s, actions[..n]), actions[n], g)
    requires WritesBots(plan, g)
    ensures BotPassPresent(plan, Run(plan, s, actions).events, g) <==>
            forall k: nat :: n < k < |actions| ==> !CleansUp(Run(plan, s, actions[..k]), actions[k])
  {
    hide Init, Run, BotsReturn, CleansUp;
    assert actions[..|actions|] == actions;
    StaysPresent(plan, s, actions, n, |actions|, g);
    if k: nat :| n < k < |actions| && CleansUp(Run(plan, s, actions[..k]), actions[k]) {
      StaysGone(plan, s, actions, n, k, |actions|, g);
      var d: nat, m: nat :| BotRow(plan, g, d, m);
      assert Bot(g, d, m) !in Run(plan, s, actions).events;
    }
  }

  lemma BotsReturnRecorded(plan: Plan, s: State, a: Action, seed: int)
    requires Inv(plan, s) && (seed, BOTS) in Step(plan, s, a).returned && (seed, BOTS) !in s.returned
    ensures s.process.Some? && s.process.value.mem.seed == seed && BotsReturn(plan, s, a, s.process.value.gen)
  {
    hide CheckpointOk, InStep, HumanRowsCommitted, NoBotRows, HumanRowsAre, SliceRows, BotRows, RealRows, MarkPhase;
  }

  /** A bot pass recorded as returned has its step in the run. */
  lemma {:induction false} RecordedBotsReturned(plan: Plan, s: State, actions: seq<Action>, j: nat, seed: int)
    requires Init(s) && j <= |actions| && (seed, BOTS) in Run(plan, s, actions[..j]).returned
    ensures exists n: nat, g: nat :: n < j && BotsReturn(plan, Run(plan, s, actions[..n]), actions[n], g)
              && Run(plan, s, actions[..n]).process.value.mem.seed == seed
    decreases j
  {
    hide Inv, Step, BotsReturn;
    if j > 0 {
      var before := Run(plan, s, actions[..j - 1]);
      RunTo(plan, s, actions, j - 1);
      if (seed, BOTS) in before.returned {
        RecordedBotsReturned(plan, s, actions, j - 1, seed);
      } else {
        InitInv(plan, s);
        RunKeepsInv(plan, s, actions[..j - 1]);
        BotsReturnRecorded(plan, before, actions[j - 1], seed);
      }
    }
  }

  /** A bot phase that the file calls done has returned under that seed at some step of the run;
      its rows are still there if and only if no events phase has cleaned up since. */
  lemma {:induction false} DoneBotsHaveRowsExactlyWhen(plan: Plan, s: State, actions: seq<Action>)
    requires Init(s) && FileDone(Run(plan, s, actions), BOTS)
    ensures exists n: nat, g: nat ::
              && n < |actions| && BotsReturn(plan, Run(plan, s, actions[..n]), actions[n], g)
              && Run(plan, s, actions[..n]).process.value.mem.seed == Run(plan, s, actions).file.value.seed
              && (WritesBots(plan, g) ==>
                    (BotPassPresent(plan, Run(plan, s, actions).events, g) <==>
                     forall k: nat :: n < k < |actions| ==> !CleansUp(Run(plan, s, actions[..k]), actions[k])))
  {
    hide Run, Inv, CleansUp, WritesBots, BotPassPresent;
    var seed := Run(plan, s, actions).file.value.seed;
    DoneIsEarned(plan, s, actions, BOTS);
    assert actions[..|actions|] == actions;
    RecordedBotsReturned(plan, s, actions, |actions|, seed);
    var n: nat, g: nat :| n < |actions| && BotsReturn(plan, Run(plan, s, actions[..n]), actions[n], g)
                          && Run(plan, s, actions[..n]).process.value.mem.seed == seed;
    if WritesBots(plan, g) {
      BotRowsStayExactlyWhen(plan, s, actions, n, g);
    }
  }

  // ---------------------------------------------------------------------------
  // Runs that break what the file says

  ghost predicate Reaches(plan: Plan, s: State, t: State) {
    exists actions :: Run(plan, s, actions) == t
  }

  lemma ReachesStart(plan: Plan, s: State)
    ensures Reaches(plan, s, s)
  {
    assert Run(plan, s, []) == s;
  }

  lemma ReachesNext(plan: Plan, s: State, t: State, a: Action)
    requires Reaches(plan, s, t)
    ensures Reaches(plan, s, Step(plan, t, a))
  {
    hide Step, Run;
    var actions :| Run(plan, s, actions) == t;
    RunLast(plan, s, actions + [a]);
    assert (actions + [a])[..|actions|] == actions;
  }

  /** The process stands at phase i of its run, with the file saved or about to be. */
  ghost predicate Standing(t: State, p: Process, i: nat) {
    && t.process == Some(p) && p.stage == AtPhase(i) && i < PHASES && !p.skipEvents && p.withBots
    && (t.file == Some(p.mem) || (i == 0 && !p.resume))
    && forall k :: 0 <= k < i ==> p.mem.status[k] == Done
  }

  /** What one phase leaves of the checkpoint: this one done, the others alone. */
  ghost predicate OneMoreDone(before: Checkpoint, after: Checkpoint, i: nat)
    requires i < PHASES
  {
    && after.seed == before.seed && after.status[i] == Done
    && (forall k :: 0 <= k < PHASES && k != i ==> after.status[k] == before.status[k])
    && (before.completed || AllDone(after) ==> after.completed)
  }

  lemma MarkedTwice(c: Checkpoint, i: nat)
    requires i < PHASES
    ensures OneMoreDone(c, MarkPhase(MarkPhase(c, i, InProgress), i, Done), i)
  {
    var c' := MarkPhase(MarkPhase(c, i, InProgress), i, Done);
    assert forall k :: 0 <= k < PHASES && k != i ==> c'.status[k] == c.status[k];
  }

  /** One phase that is not skipped, of a plan without event workers. */
  lemma PassPhase(plan: Plan, s: State, t: State, p: Process, i: nat) returns (t': State, p': Process)
    requires Reaches(plan, s, t) && Standing(t, p, i) && !ShouldSkip(p.mem, i, p.resume)
    requires plan.workers(p.gen) == 0 && plan.botDays(p.gen) == 1
    ensures Reaches(plan, s, t') && t'.process == Some(p') && t'.file == Some(p'.mem)
    ensures p'.stage == AtPhase(i + 1) && p' == p.(mem := p'.mem, stage := p'.stage) && OneMoreDone(p.mem, p'.mem, i)
    ensures t'.nextGen == t.nextGen
    ensures t'.events == if i < EVENTS then t.events else if i == EVENTS then RealRows(t.events) else t.events + BotRows(plan, p.gen, 0)
  {
    hide Reaches, AllDone, RealRows, BotRows, MarkPhase;
    MarkedTwice(p.mem, i);
    t' := Step(plan, t, Advance);
    ReachesNext(plan, s, t, Advance);
    var t2 := Step(plan, t', Advance);
    ReachesNext(plan, s, t', Advance);
    if i < EVENTS {
      t' := t2;
    } else {
      t' := Step(plan, t2, Advance);
      ReachesNext(plan, s, t2, Advance);
    }
    ReachesNext(plan, s, t', Advance);
    t' := Step(plan, t', Advance);
    p' := t'.process.value;
  }

  /** From phase i to phase `last`: what is not done is seeded, what is done may be skipped. */
  lemma {:induction false} PassPhases(plan: Plan, s: State, t: State, p: Process, i: nat, last: nat)
      returns (t': State, p': Process)
    requires Reaches(plan, s, t) && Standing(t, p, i) && i <= last <= EVENTS
    requires plan.workers(p.gen) == 0 && plan.botDays(p.gen) == 1
    ensures Reaches(plan, s, t') && Standing(t', p', last)
    ensures p' == p.(mem := p'.mem, stage := p'.stage) && p'.mem.seed == p.mem.seed
    ensures forall k :: last <= k < PHASES ==> p'.mem.status[k] == p.mem.status[k]
    ensures p.mem.completed ==> p'.mem.completed
    ensures t'.events == t.events && t'.nextGen == t.nextGen
    decreases last - i
  {
    hide Reaches, AllDone, RealRows, BotRows, MarkPhase;
    if i == last {
      return t, p;
    }
    if ShouldSkip(p.mem, i, p.resume) {
      t', p' := Step(plan, t, Advance), p.(stage := AtPhase(i + 1));
      ReachesNext(plan, s, t, Advance);
    } else {
      t', p' := PassPhase(plan, s, t, p, i);
    }
    t', p' := PassPhases(plan, s, t', p', i + 1, last);
  }

  /** No event workers, and one bot event. */
  function SmallPlan(): Plan {
    Plan(g => 0, (g, w) => 0, (g, w, k) => 0, g => 1, (g, d) => 1)
  }

  function Nothing(): State {
    State(None, [], None, 0, {})
  }

  /** A first run with bots, left alone, ends with every phase done and the completion time set. */
  lemma FinishedRun() returns (t: State)
    ensures Reaches(SmallPlan(), Nothing(), t) && t.process == None
    ensures t.file.Some? && t.file.value.seed == 42 && t.file.value.completed && AllDone(t.file.value)
    ensures Bot(0, 0, 0) in t.events
  {
    hide Reaches, MarkPhase, RealRows;
    var plan, s := SmallPlan(), Nothing();
    ReachesStart(plan, s);
    ReachesNext(plan, s, s, Launch(42, false, false, true));
    t := Step(plan, s, Launch(42, false, false, true));
    var p: Process;
    t, p := PassPhases(plan, s, t, t.process.value, 0, EVENTS);
    t, p := PassPhase(plan, s, t, p, EVENTS);
    t, p := PassPhase(plan, s, t, p, BOTS);
    assert BotRows(plan, 0, 0)[0] == Bot(0, 0, 0);
    ReachesNext(plan, s, t, Advance);
    t := Step(plan, t, Advance);
  }

  /** A run from nothing at all, after which the file holds a completion time beside an
      unfinished phase: finish, then start over without --resume. */
  lemma RestartKeepsCompletionTime() returns (t: State)
    ensures Init(Nothing()) && Reaches(SmallPlan(), Nothing(), t)
    ensures t.file.Some? && t.file.value.completed && t.file.value.status[0] == InProgress
  {
    hide Reaches;
    var done := FinishedRun();
    ReachesNext(SmallPlan(), Nothing(), done, Launch(42, false, false, true));
    t := Step(SmallPlan(), done, Launch(42, false, false, true));
    ReachesNext(SmallPlan(), Nothing(), t, Advance);
    t := Step(SmallPlan(), t, Advance);
  }

  /** Starting over without --resume and stopping after the clean-up of the events phase leaves a
      bot phase that is done and has no rows. */
  lemma CleanedAndStopped() returns (t: State)
    ensures Reaches(SmallPlan(), Nothing(), t) && t.process == None
    ensures t.file.Some? && t.file.value.seed == 42 && t.file.value.completed
    ensures forall k :: 0 <= k < PHASES && k != EVENTS ==> t.file.value.status[k] == Done
    ensures t.file.value.status[EVENTS] == InProgress
    ensures forall r :: r in t.events ==> r.Real?
  {
    hide Reaches, RealRows, MarkPhase;
    var plan, s := SmallPlan(), Nothing();
    var done := FinishedRun();
    ReachesNext(plan, s, done, Launch(42, false, false, true));
    t := Step(plan, done, Launch(42, false, false, true));
    var p: Process;
    t, p := PassPhases(plan, s, t, t.process.value, 0, EVENTS);
    StartMarks(p.mem);
    ReachesNext(plan, s, t, Advance);
    t := Step(plan, t, Advance);
    NoBotsLeft(t.events);
    ReachesNext(plan, s, t, Advance);
    t := Step(plan, t, Advance);
    ReachesNext(plan, s, t, Crash);
    t := Step(plan, t, Crash);
  }

  lemma StartMarks(c: Checkpoint)
    ensures var c' := MarkPhase(c, EVENTS, InProgress);
            c'.seed == c.seed && c'.completed == c.completed && c'.status == c.status[EVENTS := InProgress]
  {
  }

  /** A run from nothing at all, with bots in every launch, whose file ends completed with all
      seven phases done and whose table has no bot row: finish, start over without --resume and
      stop after the clean-up, then resume. */
  lemma DoneBotsCanHaveNoRows() returns (t: State)
    ensures Init(Nothing()) && Reaches(SmallPlan(), Nothing(), t) && t.process == None
    ensures t.file.Some? && t.file.value.completed && AllDone(t.file.value)
    ensures forall g :: WritesBots(SmallPlan(), g)
    ensures forall r :: r in t.events ==> !r.Bot?
  {
    hide Reaches, RealRows, MarkPhase;
    var plan, s := SmallPlan(), Nothing();
    t := CleanedAndStopped();
    ReachesNext(plan, s, t, Launch(42, true, false, true));
    t := Step(plan, t, Launch(42, true, false, true));
    var p: Process;
    t, p := PassPhases(plan, s, t, t.process.value, 0, EVENTS);
    NoBotsLeft(t.events);
    t, p := PassPhase(plan, s, t, p, EVENTS);
    ReachesNext(plan, s, t, Advance);
    t := Step(plan, t, Advance);
    ReachesNext(plan, s, t, Advance);
    t := Step(plan, t, Advance);
    forall g ensures WritesBots(plan, g) {
      assert BotRow(plan, g, 0, 0);
    }
  }

  // ---------------------------------------------------------------------------
  // The orchestrator, left alone

  /** The phases a run with these flags gets to. */
  predicate Reached(phase: nat, skipEvents: bool, withBots: bool) {
    phase < FIRST_SKIPPABLE || (!skipEvents && (phase < BOTS || withBots))
  }

  class Seeder {
    var file: Option<Checkpoint>
    var checkpoint: Checkpoint

    constructor (file: Option<Checkpoint>, seed: int)
      ensures this.file == file && checkpoint == LoadCheckpoint(file, seed)
      ensures checkpoint.seed == seed
      ensures file.Some? && file.value.seed == seed ==> checkpoint == file.value
      ensures !(file.Some? && file.value.seed == seed) ==>
        !checkpoint.completed && forall i :: 0 <= i < PHASES ==> checkpoint.status[i] == Pending
    {
      this.file := file;
      checkpoint := if file.Some? && file.value.seed == seed then file.value else FreshCheckpoint(seed);
    }

    method MarkAndSave(phase: nat, status: Status)
      requires phase < PHASES
      modifies this
      ensures checkpoint == MarkPhase(old(checkpoint), phase, status) && file == Some(checkpoint)
      ensures checkpoint.seed == old(checkpoint).seed && checkpoint.status == old(checkpoint).status[phase := status]
      ensures checkpoint.completed <==>
        old(checkpoint).completed || (status == Done && forall i :: 0 <= i < PHASES ==> checkpoint.status[i] == Done)
    {
      checkpoint := checkpoint.(status := checkpoint.status[phase := status]);
      if status == Done && forall i :: 0 <= i < PHASES ==> checkpoint.status[i] == Done {
        checkpoint := checkpoint.(completed := true);
      }
      file := Some(checkpoint);
    }

    /** main() without a crash: every phase the flags let it reach ends up done, the others keep
        what they had. A completion time appears exactly when the last open phase closes, so a
        first run without bots never gets one. */
    method RunPhases(resume: bool, skipEvents: bool, withBots: bool)
      modifies this
      ensures forall i :: 0 <= i < PHASES ==>
        checkpoint.status[i] == if Reached(i, skipEvents, withBots) then Done else old(checkpoint).status[i]
      ensures checkpoint.seed == old(checkpoint).seed
      ensures file == Some(checkpoint) || (file == old(file) && checkpoint == old(checkpoint))
      ensures old(checkpoint).completed ==> checkpoint.completed
      ensures !old(checkpoint).completed && !AllDone(old(checkpoint)) ==> (checkpoint.completed <==> AllDone(checkpoint))
    {
      var i := 0;
      while i < PHASES && Reached(i, skipEvents, withBots)
        invariant i <= PHASES
        invariant forall k :: 0 <= k < i ==> Reached(k, skipEvents, withBots) && checkpoint.status[k] == Done
        invariant forall k :: i <= k < PHASES ==> checkpoint.status[k] == old(checkpoint).status[k]
        invariant checkpoint.seed == old(checkpoint).seed
        invariant file == Some(checkpoint) || (file == old(file) && checkpoint == old(checkpoint))
        invariant old(checkpoint).completed ==> checkpoint.completed
        invariant !old(checkpoint).completed && !AllDone(old(checkpoint)) ==> (checkpoint.completed <==> AllDone(checkpoint))
      {
        if !ShouldSkip(checkpoint, i, resume) {
          ghost var before := checkpoint;
          MarkAndSave(i, InProgress);
          assert checkpoint.status[i] == InProgress;
          MarkAndSave(i, Done);
          assert forall k :: 0 <= k < PHASES && k != i ==> checkpoint.status[k] == before.status[k];
        }
        i := i + 1;
      }
    }
  }
}
