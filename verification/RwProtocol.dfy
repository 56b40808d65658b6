/**
 The atomic-step protocol of `RwLock` and `RwMutex`.

 Any number of tasks run the lock operations; one action is one atomic operation on the lock word,
 and actions of different tasks interleave freely. A failing `try_read` or `try_upread` disturbs the
 word first and retracts in a later action; an upgrade takes three actions and a downgrade two.
 `RwLock` runs are the runs without the downgrade actions; `RwMutex` runs are all runs.
 */
module RwProtocol {
  import opened Bits
  import opened LockWord

  type Task = nat

  /** What a task is in the middle of. */
  datatype Pc =
    | Idle
    | ReadRetract    // `try_read` was turned away and has not yet subtracted its reader
    | UpreadRetract  // `try_upread` met a writer and has not yet cleared the bit it set
    | Upgrading      // `upgrade` has set `BEING_UPGRADED` and is in its loop
    | UpgradeWon     // the upgrading compare-exchange succeeded, `UPGRADEABLE_READER` is still set
    | Downgraded     // the downgrading compare-exchange succeeded, the trailing `fetch_and` is due

  /** Every task's position and the guards that are alive. */
  datatype Actors = Actors(
    pc: map<Task, Pc>,
    readGuards: multiset<Task>,
    upGuards: multiset<Task>,
    writeGuards: multiset<Task>)

  datatype State = State(word: Word, value: int, actors: Actors)

  datatype Action =
    | TryRead(t: Task)
    | RetractRead(t: Task)
    | DropRead(t: Task)
    | TryWrite(t: Task)
    | DropWrite(t: Task)
    | TryUpread(t: Task)
    | RetractUpread(t: Task)
    | DropUpread(t: Task)
    | BeginUpgrade(t: Task)
    | TryUpgrade(t: Task)
    | FinishUpgrade(t: Task)
    | TryDowngrade(t: Task)
    | FinishDowngrade(t: Task)
    | Write(t: Task, v: int)

  /** The actions that only `RwMutex` has. */
  predicate IsDowngrade(a: Action) {
    a.TryDowngrade? || a.FinishDowngrade?
  }

  predicate Enabled(g: Actors, a: Action) {
    && a.t in g.pc
    && match a
       case TryRead(t) => g.pc[t].Idle?
       case RetractRead(t) => g.pc[t].ReadRetract?
       case DropRead(t) => g.pc[t].Idle? && t in g.readGuards
       case TryWrite(t) => g.pc[t].Idle?
       case DropWrite(t) => g.pc[t].Idle? && t in g.writeGuards
       case TryUpread(t) => g.pc[t].Idle?
       case RetractUpread(t) => g.pc[t].UpreadRetract?
       case DropUpread(t) => g.pc[t].Idle? && t in g.upGuards
       case BeginUpgrade(t) => g.pc[t].Idle? && t in g.upGuards
       case TryUpgrade(t) => g.pc[t].Upgrading?
       case FinishUpgrade(t) => g.pc[t].UpgradeWon?
       case TryDowngrade(t) => g.pc[t].Idle? && t in g.writeGuards
       case FinishDowngrade(t) => g.pc[t].Downgraded?
       case Write(t, v) => g.pc[t].Idle? && t in g.writeGuards
  }

  /** The atomic operation an action performs on the word. */
  function WordAfter(w: Word, a: Action): Word {
    match a
    case TryRead(_) => FetchAdd(w, READER)
    case RetractRead(_) => FetchSub(w, READER)
    case DropRead(_) => FetchSub(w, READER)
    case TryWrite(_) => if w == 0 then WRITER else w
    case DropWrite(_) => FetchAnd(w, Not(WRITER))
    case TryUpread(_) => FetchOr(w, UPGRADEABLE_READER)
    case RetractUpread(_) => FetchSub(w, UPGRADEABLE_READER)
    case DropUpread(_) => FetchSub(w, UPGRADEABLE_READER)
    case BeginUpgrade(_) => FetchOr(w, BEING_UPGRADED)
    case TryUpgrade(_) => if w == UPGRADING_WORD then UPGRADED_WORD else w
    case FinishUpgrade(_) => FetchSub(w, UPGRADEABLE_READER)
    case TryDowngrade(_) => if w == WRITER then UPGRADEABLE_READER else w
    case FinishDowngrade(_) => FetchAnd(w, Not(WRITER))
    case Write(_, _) => w
  }

  /** How an attempt ended: with what it wanted, owing a retraction, or with nothing. */
  datatype Outcome = Granted | Disturbed | Refused

  /** The branch the code takes on the previous word. */
  function OutcomeOf(w: Word, a: Action): Outcome {
    match a
    case TryRead(_) => if ReadBlocked(w) then Disturbed else Granted
    case TryWrite(_) => if w == 0 then Granted else Refused
    case TryUpread(_) =>
      var seen := And(w, UPGRADED_WORD);
      if seen == 0 then Granted else if seen == WRITER then Disturbed else Refused
    case TryUpgrade(_) => if w == UPGRADING_WORD then Granted else Refused
    case TryDowngrade(_) => if w == WRITER then Granted else Refused
    case _ => Granted
  }

  /** What the acting task has and owes afterwards. */
  function ActorsAfter(g: Actors, a: Action, o: Outcome): Actors
    requires Enabled(g, a)
  {
    var t := a.t;
    match a
    case TryRead(_) =>
      if o.Granted? then g.(readGuards := g.readGuards + multiset{t})
      else g.(pc := g.pc[t := ReadRetract])
    case RetractRead(_) => g.(pc := g.pc[t := Idle])
    case DropRead(_) => g.(readGuards := g.readGuards - multiset{t})
    case TryWrite(_) => if o.Granted? then g.(writeGuards := g.writeGuards + multiset{t}) else g
    case DropWrite(_) => g.(writeGuards := g.writeGuards - multiset{t})
    case TryUpread(_) =>
      if o.Granted? then g.(upGuards := g.upGuards + multiset{t})
      else if o.Disturbed? then g.(pc := g.pc[t := UpreadRetract])
      else g
    case RetractUpread(_) => g.(pc := g.pc[t := Idle])
    case DropUpread(_) => g.(upGuards := g.upGuards - multiset{t})
    case BeginUpgrade(_) => g.(pc := g.pc[t := Upgrading], upGuards := g.upGuards - multiset{t})
    case TryUpgrade(_) => if o.Granted? then g.(pc := g.pc[t := UpgradeWon]) else g
    case FinishUpgrade(_) => g.(pc := g.pc[t := Idle], writeGuards := g.writeGuards + multiset{t})
    case TryDowngrade(_) =>
      if o.Granted? then g.(pc := g.pc[t := Downgraded], writeGuards := g.writeGuards - multiset{t})
      else g
    case FinishDowngrade(_) => g.(pc := g.pc[t := Idle], upGuards := g.upGuards + multiset{t})
    case Write(_, _) => g
  }

  function Step(s: State, a: Action): State
    requires Enabled(s.actors, a)
  {
    State(WordAfter(s.word, a), if a.Write? then a.v else s.value,
          ActorsAfter(s.actors, a, OutcomeOf(s.word, a)))
  }

  predicate Init(s: State) {
    && s.word == 0
    && (forall t | t in s.actors.pc :: s.actors.pc[t].Idle?)
    && s.actors.readGuards == s.actors.upGuards == s.actors.writeGuards == multiset{}
  }

  // ---- Counting tasks by position ----

  function At(pc: map<Task, Pc>, c: Pc): set<Task> {
    set t | t in pc && pc[t] == c
  }

  function Count(pc: map<Task, Pc>, c: Pc): nat {
    |At(pc, c)|
  }

  lemma CountMoves(pc: map<Task, Pc>, t: Task, to: Pc, c: Pc)
    requires t in pc
    ensures Count(pc[t := to], c)
            == Count(pc, c) + (if c == to then 1 else 0) - (if c == pc[t] then 1 else 0)
  {
    var pc' := pc[t := to];
    if c == to && c != pc[t] {
      assert At(pc', c) == At(pc, c) + {t};
    } else if c != to && c == pc[t] {
      assert At(pc', c) == At(pc, c) - {t};
    } else {
      assert At(pc', c) == At(pc, c);
    }
  }

  /** A task counts at its own position. */
  lemma CountPositive(pc: map<Task, Pc>, t: Task)
    requires t in pc
    ensures Count(pc, pc[t]) >= 1
  {
    assert t in At(pc, pc[t]);
  }

  /** An idle task leaves at most the others elsewhere. */
  lemma CountBelowTasks(pc: map<Task, Pc>, t: Task, c: Pc)
    requires t in pc && pc[t] != c
    ensures Count(pc, c) < |pc|
  {
    assert At(pc, c) <= pc.Keys - {t};
    SubsetCard(At(pc, c), pc.Keys - {t});
  }

  lemma {:induction false} SubsetCard(a: set<Task>, b: set<Task>)
    requires a <= b
    ensures |a| <= |b|
  {
    assert b == a + (b - a);
  }

  lemma Moves(pc: map<Task, Pc>, t: Task, to: Pc)
    requires t in pc
    ensures forall c :: Count(pc[t := to], c)
                     == Count(pc, c) + (if c == to then 1 else 0) - (if c == pc[t] then 1 else 0)
    ensures Count(pc, pc[t]) >= 1
    ensures |pc[t := to]| == |pc|
  {
    forall c ensures Count(pc[t := to], c)
                     == Count(pc, c) + (if c == to then 1 else 0) - (if c == pc[t] then 1 else 0) {
      CountMoves(pc, t, to, c);
    }
    CountPositive(pc, t);
    assert pc[t := to].Keys == pc.Keys;
  }

  // ---- The invariant ----

  /** Everything that owns bit 62. */
  function UpOwners(g: Actors): nat {
    |g.upGuards| + Count(g.pc, UpreadRetract) + Count(g.pc, Upgrading) + Count(g.pc, UpgradeWon)
    + Count(g.pc, Downgraded)
  }

  /** Everything that owns bit 63: the write guard, or an upgrade about to return it. */
  function Writers(g: Actors): nat {
    |g.writeGuards| + Count(g.pc, UpgradeWon)
  }

  /** Everything besides writers that may look at the value. */
  function Sharers(g: Actors): nat {
    |g.readGuards| + |g.upGuards| + Count(g.pc, Upgrading) + Count(g.pc, Downgraded)
  }

  /** The fields say exactly what the tasks are doing. */
  predicate Exact(f: Fields, g: Actors) {
    && Writers(g) == (if f.writer then 1 else 0)
    && UpOwners(g) == (if f.upread then 1 else 0)
    && Count(g.pc, Upgrading) == (if f.upgrading then 1 else 0)
    && f.readers == |g.readGuards| + Count(g.pc, ReadRetract)
  }

  /** Fewer than 2^60 tasks use the lock at once. */
  predicate FewTasks(g: Actors) {
    |g.pc| < MAX_READER
  }

  predicate Consistent(f: Fields, g: Actors) {
    && Exact(f, g)
    && (f.writer ==> Sharers(g) == 0)
    && |g.readGuards| <= MAX_READER
    && FewTasks(g)
  }

  predicate Inv(s: State) {
    Consistent(Decode(s.word), s.actors)
  }

  // ---- The protocol in terms of the fields ----

  /** `OutcomeOf`, read off the fields. */
  function FieldOutcome(f: Fields, a: Action): Outcome {
    match a
    case TryRead(_) => if f.writer || f.upgrading || MAX_READER <= f.readers then Disturbed else Granted
    case TryWrite(_) => if f == Fields(false, false, false, 0) then Granted else Refused
    case TryUpread(_) => if f.upread then Refused else if f.writer then Disturbed else Granted
    case TryUpgrade(_) => if f == Fields(false, true, true, 0) then Granted else Refused
    case TryDowngrade(_) => if f == Fields(true, false, false, 0) then Granted else Refused
    case _ => Granted
  }

  /** `WordAfter`, as a change of fields, when nothing carries. */
  function FieldsAfter(f: Fields, a: Action): Fields {
    match a
    case TryRead(_) => f.(readers := f.readers + 1)
    case RetractRead(_) => f.(readers := if f.readers > 0 then f.readers - 1 else 0)
    case DropRead(_) => f.(readers := if f.readers > 0 then f.readers - 1 else 0)
    case TryWrite(_) => if FieldOutcome(f, a).Granted? then f.(writer := true) else f
    case DropWrite(_) => f.(writer := false)
    case TryUpread(_) => f.(upread := true)
    case RetractUpread(_) => f.(upread := false)
    case DropUpread(_) => f.(upread := false)
    case BeginUpgrade(_) => f.(upgrading := true)
    case TryUpgrade(_) => if FieldOutcome(f, a).Granted? then f.(writer := true, upgrading := false) else f
    case FinishUpgrade(_) => f.(upread := false)
    case TryDowngrade(_) => if FieldOutcome(f, a).Granted? then f.(writer := false, upread := true) else f
    case FinishDowngrade(_) => f.(writer := false)
    case Write(_, _) => f
  }

  /** The operations that subtract or add stay inside their field. */
  predicate Contained(f: Fields, a: Action) {
    && (a.TryRead? ==> f.readers < MAX_READER_MASK)
    && (a.RetractRead? || a.DropRead? ==> f.readers > 0)
    && (a.RetractUpread? || a.DropUpread? || a.FinishUpgrade? ==> f.upread)
  }

  lemma OutcomeByFields(w: Word, a: Action)
    ensures OutcomeOf(w, a) == FieldOutcome(Decode(w), a)
  {
    match a
    case TryRead(_) => ReadBlockedExactly(w);
    case TryUpread(_) => UpreadSeenExactly(w);
    case TryWrite(_) => DecodesTo(w, 0, Fields(false, false, false, 0));
    case TryUpgrade(_) => DecodesTo(w, UPGRADING_WORD, Fields(false, true, true, 0));
    case TryDowngrade(_) => DecodesTo(w, WRITER, Fields(true, false, false, 0));
    case _ =>
  }

  lemma WordByFields(w: Word, a: Action)
    requires Contained(Decode(w), a)
    ensures Decode(WordAfter(w, a)) == FieldsAfter(Decode(w), a)
  {
    match a
    case TryRead(_) => AddReader(w);
    case RetractRead(_) => SubReader(w);
    case DropRead(_) => SubReader(w);
    case TryUpread(_) => SetUpread(w);
    case RetractUpread(_) => ClearUpread(w);
    case DropUpread(_) => ClearUpread(w);
    case BeginUpgrade(_) => SetUpgrading(w);
    case FinishUpgrade(_) => ClearUpread(w);
    case DropWrite(_) => ClearWriter(w);
    case FinishDowngrade(_) => ClearWriter(w);
    case TryWrite(_) => CompareExchange(w, 0, WRITER, Fields(false, false, false, 0), Fields(true, false, false, 0));
    case TryUpgrade(_) =>
      CompareExchange(w, UPGRADING_WORD, UPGRADED_WORD, Fields(false, true, true, 0), Fields(true, true, false, 0));
    case TryDowngrade(_) =>
      CompareExchange(w, WRITER, UPGRADEABLE_READER, Fields(true, false, false, 0), Fields(false, true, false, 0));
    case Write(_, _) =>
  }

  /** In a consistent state no enabled operation carries or borrows. */
  lemma EnabledIsContained(f: Fields, g: Actors, a: Action)
    requires Consistent(f, g) && Enabled(g, a)
    ensures Contained(f, a)
  {
    CountPositive(g.pc, a.t);
    if a.TryRead? { CountBelowTasks(g.pc, a.t, ReadRetract); }
  }

  lemma ReadKeepsConsistent(f: Fields, g: Actors, a: Action)
    requires Consistent(f, g) && Enabled(g, a)
    requires a.TryRead? || a.RetractRead? || a.DropRead?
    ensures Consistent(FieldsAfter(f, a), ActorsAfter(g, a, FieldOutcome(f, a)))
  {
    EnabledIsContained(f, g, a);
    Moves(g.pc, a.t, if a.TryRead? then ReadRetract else Idle);
  }

  lemma WriteKeepsConsistent(f: Fields, g: Actors, a: Action)
    requires Consistent(f, g) && Enabled(g, a)
    requires a.TryWrite? || a.DropWrite? || a.Write?
    ensures Consistent(FieldsAfter(f, a), ActorsAfter(g, a, FieldOutcome(f, a)))
  {}

  lemma UpreadKeepsConsistent(f: Fields, g: Actors, a: Action)
    requires Consistent(f, g) && Enabled(g, a) && a.TryUpread?
    ensures Consistent(FieldsAfter(f, a), ActorsAfter(g, a, FieldOutcome(f, a)))
  {
    Moves(g.pc, a.t, UpreadRetract);
  }

  lemma UpreadEndKeepsConsistent(f: Fields, g: Actors, a: Action)
    requires Consistent(f, g) && Enabled(g, a) && (a.RetractUpread? || a.DropUpread?)
    ensures Consistent(FieldsAfter(f, a), ActorsAfter(g, a, FieldOutcome(f, a)))
  {
    Moves(g.pc, a.t, Idle);
  }

  lemma UpgradeKeepsConsistent(f: Fields, g: Actors, a: Action)
    requires Consistent(f, g) && Enabled(g, a)
    requires a.BeginUpgrade? || a.TryUpgrade? || a.FinishUpgrade?
    ensures Consistent(FieldsAfter(f, a), ActorsAfter(g, a, FieldOutcome(f, a)))
  {
    Moves(g.pc, a.t, if a.BeginUpgrade? then Upgrading else if a.TryUpgrade? then UpgradeWon else Idle);
  }

  lemma DowngradeKeepsConsistent(f: Fields, g: Actors, a: Action)
    requires Consistent(f, g) && Enabled(g, a) && IsDowngrade(a)
    ensures Consistent(FieldsAfter(f, a), ActorsAfter(g, a, FieldOutcome(f, a)))
  {
    Moves(g.pc, a.t, if a.TryDowngrade? then Downgraded else Idle);
  }

  /** Every action of every task keeps the invariant. */
  lemma StepInv(s: State, a: Action)
    requires Inv(s) && Enabled(s.actors, a)
    ensures Inv(Step(s, a))
    ensures Decode(Step(s, a).word) == FieldsAfter(Decode(s.word), a)
  {
    var f, g := Decode(s.word), s.actors;
    EnabledIsContained(f, g, a);
    OutcomeByFields(s.word, a);
    WordByFields(s.word, a);
    if a.TryRead? || a.RetractRead? || a.DropRead? { ReadKeepsConsistent(f, g, a); }
    else if a.TryWrite? || a.DropWrite? || a.Write? { WriteKeepsConsistent(f, g, a); }
    else if a.TryUpread? { UpreadKeepsConsistent(f, g, a); }
    else if a.RetractUpread? || a.DropUpread? { UpreadEndKeepsConsistent(f, g, a); }
    else if IsDowngrade(a) { DowngradeKeepsConsistent(f, g, a); }
    else { UpgradeKeepsConsistent(f, g, a); }
  }
}
