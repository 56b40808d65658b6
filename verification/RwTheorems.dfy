/**
 What the `RwLock` and `RwMutex` protocol guarantees over every run.

 A run is any interleaving of atomic actions by any set of fewer than 2^60 tasks, starting from the
 unlocked word.
 */
module RwTheorems {
  import opened Bits
  import opened LockWord
  import opened RwProtocol

  predicate StepAt(states: seq<State>, actions: seq<Action>, i: nat)
    requires |states| == |actions| + 1 && i < |actions|
  {
    Enabled(states[i].actors, actions[i]) && states[i + 1] == Step(states[i], actions[i])
  }

  predicate IsRun(states: seq<State>, actions: seq<Action>) {
    && |states| == |actions| + 1
    && Init(states[0])
    && FewTasks(states[0].actors)
    && (forall i | 0 <= i < |actions| :: StepAt(states, actions, i))
  }

  lemma InitInv(s: State)
    requires Init(s) && FewTasks(s.actors)
    ensures Inv(s)
  {
    DecodesTo(s.word, 0, Fields(false, false, false, 0));
    forall c: Pc | c != Idle ensures Count(s.actors.pc, c) == 0 {
      assert At(s.actors.pc, c) == {};
    }
  }

  lemma {:induction false} RunInv(states: seq<State>, actions: seq<Action>, i: nat)
    requires IsRun(states, actions) && i < |states|
    ensures Inv(states[i])
  {
    if i == 0 {
      InitInv(states[0]);
    } else {
      RunInv(states, actions, i - 1);
      assert StepAt(states, actions, i - 1);
      StepInv(states[i - 1], actions[i - 1]);
    }
  }

  // ---- Exclusion and the word ----

  /**
   In every state of every run: one write guard at most and never beside any other guard, and at
   most one upgradeable guard.
   */
  lemma Exclusion(states: seq<State>, actions: seq<Action>, i: nat)
    requires IsRun(states, actions) && i < |states|
    ensures var g := states[i].actors;
            && |g.writeGuards| <= 1 && |g.upGuards| <= 1
            && (g.writeGuards != multiset{} ==> g.readGuards == multiset{} && g.upGuards == multiset{})
  {
    RunInv(states, actions, i);
  }

  /** In every state of every run the word is the encoding of what the tasks are doing. */
  lemma WordDecodes(states: seq<State>, actions: seq<Action>, i: nat)
    requires IsRun(states, actions) && i < |states|
    ensures var s := states[i]; var g := s.actors;
            && UpOwners(g) <= 1 && Writers(g) <= 1
            && |g.readGuards| + Count(g.pc, ReadRetract) <= MAX_READER_MASK
            && s.word == Encode(Fields(Writers(g) == 1, UpOwners(g) == 1, Count(g.pc, Upgrading) == 1,
                                       |g.readGuards| + Count(g.pc, ReadRetract)))
  {
    RunInv(states, actions, i);
    InvEncodes(states[i]);
  }

  lemma InvEncodes(s: State)
    requires Inv(s)
    ensures var g := s.actors;
            && UpOwners(g) <= 1 && Writers(g) <= 1
            && |g.readGuards| + Count(g.pc, ReadRetract) <= MAX_READER_MASK
            && s.word == Encode(Fields(Writers(g) == 1, UpOwners(g) == 1, Count(g.pc, Upgrading) == 1,
                                       |g.readGuards| + Count(g.pc, ReadRetract)))
  {
    Layout(s.word);
  }

  /**
   The additions and subtractions never leave the word and never touch a neighbouring field: where
   the code assumes the count below 2^61 - 1 it is, and at most 2^60 read guards are ever alive.
   */
  lemma NoReaderOverflow(states: seq<State>, actions: seq<Action>, i: nat)
    requires IsRun(states, actions) && i < |actions|
    ensures var w, a := states[i].word, actions[i];
            && |states[i].actors.readGuards| <= MAX_READER
            && (a.TryRead? || a.DropRead? ==> Decode(w).readers < MAX_READER_MASK)
            && Decode(states[i + 1].word) == FieldsAfter(Decode(w), a)
            && (a.TryRead? ==> states[i + 1].word == w + READER)
            && (a.RetractRead? || a.DropRead? ==> states[i + 1].word == w - READER)
            && (a.RetractUpread? || a.DropUpread? || a.FinishUpgrade?
                ==> states[i + 1].word == w - UPGRADEABLE_READER)
  {
    RunInv(states, actions, i);
    assert StepAt(states, actions, i);
    StepInv(states[i], actions[i]);
    StepStaysInWord(states[i], actions[i]);
  }

  lemma ContainedStaysInWord(w: Word, a: Action)
    requires Contained(Decode(w), a)
    ensures a.TryRead? ==> WordAfter(w, a) == w + READER
    ensures a.RetractRead? || a.DropRead? ==> WordAfter(w, a) == w - READER
    ensures a.RetractUpread? || a.DropUpread? || a.FinishUpgrade? ==> WordAfter(w, a) == w - UPGRADEABLE_READER
  {
    Layout(w);
  }

  lemma StepStaysInWord(s: State, a: Action)
    requires Inv(s) && Enabled(s.actors, a)
    ensures a.TryRead? || a.DropRead? ==> Decode(s.word).readers < MAX_READER_MASK
    ensures a.TryRead? ==> Step(s, a).word == s.word + READER
    ensures a.RetractRead? || a.DropRead? ==> Step(s, a).word == s.word - READER
    ensures a.RetractUpread? || a.DropUpread? || a.FinishUpgrade?
            ==> Step(s, a).word == s.word - UPGRADEABLE_READER
  {
    EnabledIsContained(Decode(s.word), s.actors, a);
    if a.DropRead? { CountBelowTasks(s.actors.pc, a.t, ReadRetract); }
    ContainedStaysInWord(s.word, a);
  }

  // ---- When attempts succeed ----

  /**
   Exactly when each attempt is granted, in terms of guards and unfinished operations. A failed
   attempt that has not retracted yet can make another attempt fail although no guard stands in its
   way: a downgrade, for one, waits for retractions although the writer is alone.
   */
  lemma AttemptsGrantedExactly(states: seq<State>, actions: seq<Action>, i: nat)
    requires IsRun(states, actions) && i < |actions|
    ensures var g, a := states[i].actors, actions[i];
            var granted := OutcomeOf(states[i].word, a).Granted?;
            var retracting := Count(g.pc, ReadRetract);
            match a
            case TryRead(_) =>
              granted <==> Writers(g) == 0 && Count(g.pc, Upgrading) == 0
                           && |g.readGuards| + retracting < MAX_READER
            case TryWrite(_) =>
              granted <==> Writers(g) == 0 && UpOwners(g) == 0 && |g.readGuards| + retracting == 0
            case TryUpread(_) => granted <==> Writers(g) == 0 && UpOwners(g) == 0
            case TryUpgrade(_) => granted <==> |g.readGuards| + retracting == 0
            case TryDowngrade(_) => granted <==> retracting == 0 && Count(g.pc, UpreadRetract) == 0
            case _ => true
  {
    var s, a := states[i], actions[i];
    RunInv(states, actions, i);
    assert StepAt(states, actions, i);
    OutcomeByFields(s.word, a);
    CountPositive(s.actors.pc, a.t);
  }

  // ---- Values ----

  /** `t` may look at the protected value, or is between two guards that may. */
  predicate HasAccess(g: Actors, t: Task) {
    || t in g.readGuards || t in g.upGuards
    || (t in g.pc && (g.pc[t].Upgrading? || g.pc[t].UpgradeWon? || g.pc[t].Downgraded?))
  }

  /** Nobody writes while somebody has access. */
  lemma AccessBlocksWrites(s: State, a: Action, t: Task)
    requires Inv(s) && Enabled(s.actors, a) && HasAccess(s.actors, t)
    ensures Step(s, a).value == s.value
  {
    if t in s.actors.pc { CountPositive(s.actors.pc, t); }
  }

  /**
   The value does not change while a task keeps access: across a read guard, from a successful
   `try_upread` through every step of `upgrade` up to its return, and through the middle of a
   downgrade.
   */
  lemma {:induction false} ValueStableWhileHeld(states: seq<State>, actions: seq<Action>, i: nat, j: nat, t: Task)
    requires IsRun(states, actions) && i <= j < |states|
    requires forall k | i <= k < j :: HasAccess(states[k].actors, t)
    ensures states[j].value == states[i].value
    decreases j
  {
    if i < j {
      ValueStableWhileHeld(states, actions, i, j - 1, t);
      RunInv(states, actions, j - 1);
      assert StepAt(states, actions, j - 1);
      AccessBlocksWrites(states[j - 1], actions[j - 1], t);
    }
  }

  /**
   An upgrade is atomic: the write guard that `upgrade` returns starts from the value the
   upgradeable guard read, however long the upgrade waited and whatever others did meanwhile.
   */
  lemma UpgradeIsAtomic(states: seq<State>, actions: seq<Action>, i: nat, j: nat, t: Task)
    requires IsRun(states, actions) && i < j < |actions|
    requires actions[i] == TryUpread(t) && OutcomeOf(states[i].word, actions[i]).Granted?
    requires actions[j] == FinishUpgrade(t)
    requires forall k | i < k < j :: actions[k].t == t ==> actions[k].BeginUpgrade? || actions[k].TryUpgrade?
    ensures t in states[j + 1].actors.writeGuards
    ensures states[j + 1].value == states[i + 1].value
  {
    forall k | i < k <= j ensures HasAccess(states[k].actors, t) {
      UpgradeKeepsAccess(states, actions, i, k, t);
    }
    assert StepAt(states, actions, i) && StepAt(states, actions, j);
    ValueStableWhileHeld(states, actions, i + 1, j + 1, t);
  }

  /** `t` owns the upgradeable guard, or an `upgrade` of it that has not returned. */
  predicate OwnsUpread(g: Actors, t: Task) {
    t in g.pc && (t in g.upGuards || g.pc[t].Upgrading? || g.pc[t].UpgradeWon?)
  }

  lemma StepKeepsUpread(states: seq<State>, actions: seq<Action>, k: nat, t: Task)
    requires IsRun(states, actions) && k < |actions| && OwnsUpread(states[k].actors, t)
    requires actions[k].t == t ==> actions[k].BeginUpgrade? || actions[k].TryUpgrade?
    ensures OwnsUpread(states[k + 1].actors, t)
  {
    assert StepAt(states, actions, k);
    if actions[k].t != t { OthersLeaveAlone(states[k], actions[k], t); }
  }

  lemma {:induction false} UpgradeKeepsAccess(states: seq<State>, actions: seq<Action>, i: nat, k: nat, t: Task)
    requires IsRun(states, actions) && i < k < |states|
    requires actions[i] == TryUpread(t) && OutcomeOf(states[i].word, actions[i]).Granted?
    requires forall m | i < m < k :: actions[m].t == t ==> actions[m].BeginUpgrade? || actions[m].TryUpgrade?
    ensures OwnsUpread(states[k].actors, t)
    decreases k
  {
    if i + 1 < k {
      UpgradeKeepsAccess(states, actions, i, k - 1, t);
      StepKeepsUpread(states, actions, k - 1, t);
    } else {
      assert StepAt(states, actions, i);
    }
  }

  /** What belongs to a task changes only by its own actions. */
  lemma OthersLeaveAlone(s: State, a: Action, t: Task)
    requires Enabled(s.actors, a) && a.t != t
    ensures var g, g' := s.actors, Step(s, a).actors;
            && (t in g'.pc <==> t in g.pc) && (t in g.pc ==> g'.pc[t] == g.pc[t])
            && g'.readGuards[t] == g.readGuards[t] && g'.upGuards[t] == g.upGuards[t]
            && g'.writeGuards[t] == g.writeGuards[t]
  {}

  /** A downgrade is atomic: the upgradeable guard starts from the value the writer left. */
  lemma DowngradeIsAtomic(states: seq<State>, actions: seq<Action>, i: nat, j: nat, t: Task)
    requires IsRun(states, actions) && i < j < |actions|
    requires actions[i] == TryDowngrade(t) && OutcomeOf(states[i].word, actions[i]).Granted?
    requires actions[j] == FinishDowngrade(t)
    requires forall k | i < k < j :: actions[k].t != t
    ensures t in states[j + 1].actors.upGuards
    ensures states[j + 1].value == states[i].value
  {
    forall k | i < k <= j ensures HasAccess(states[k].actors, t) {
      StaysDowngraded(states, actions, i, k, t);
    }
    assert StepAt(states, actions, i) && StepAt(states, actions, j);
    ValueStableWhileHeld(states, actions, i + 1, j + 1, t);
  }

  predicate IsDowngraded(g: Actors, t: Task) {
    t in g.pc && g.pc[t].Downgraded?
  }

  lemma StepKeepsDowngraded(states: seq<State>, actions: seq<Action>, k: nat, t: Task)
    requires IsRun(states, actions) && k < |actions|
    requires IsDowngraded(states[k].actors, t) && actions[k].t != t
    ensures IsDowngraded(states[k + 1].actors, t)
  {
    assert StepAt(states, actions, k);
    OthersLeaveAlone(states[k], actions[k], t);
  }

  lemma {:induction false} StaysDowngraded(states: seq<State>, actions: seq<Action>, i: nat, k: nat, t: Task)
    requires IsRun(states, actions) && i < k < |states|
    requires actions[i] == TryDowngrade(t) && OutcomeOf(states[i].word, actions[i]).Granted?
    requires forall m | i < m < k :: actions[m].t != t
    ensures IsDowngraded(states[k].actors, t)
    decreases k
  {
    if i + 1 < k {
      StaysDowngraded(states, actions, i, k - 1, t);
      StepKeepsDowngraded(states, actions, k - 1, t);
    } else {
      assert StepAt(states, actions, i);
    }
  }

  /** The `fetch_and(!WRITER)` that ends a downgrade never changes the word. */
  lemma TrailingFetchAndIsIdle(states: seq<State>, actions: seq<Action>, i: nat)
    requires IsRun(states, actions) && i < |actions| && actions[i].FinishDowngrade?
    ensures states[i + 1].word == states[i].word
  {
    RunInv(states, actions, i);
    assert StepAt(states, actions, i);
    CountPositive(states[i].actors.pc, actions[i].t);
    ClearWriter(states[i].word);
  }

  lemma UpgradeBlocksReaders(s: State, a: Action, t: Task)
    requires Inv(s) && Enabled(s.actors, a) && t in s.actors.pc && s.actors.pc[t].Upgrading?
    ensures Step(s, a).actors.readGuards <= s.actors.readGuards
  {
    OutcomeByFields(s.word, a);
    CountPositive(s.actors.pc, t);
  }

  /** While an upgrade waits in its loop no new read guard appears. */
  lemma {:induction false} NoNewReadersDuringUpgrade(states: seq<State>, actions: seq<Action>, i: nat, j: nat, t: Task)
    requires IsRun(states, actions) && i <= j < |states|
    requires forall k | i <= k < j :: t in states[k].actors.pc && states[k].actors.pc[t].Upgrading?
    ensures states[j].actors.readGuards <= states[i].actors.readGuards
    decreases j
  {
    if i < j {
      NoNewReadersDuringUpgrade(states, actions, i, j - 1, t);
      RunInv(states, actions, j - 1);
      assert StepAt(states, actions, j - 1);
      UpgradeBlocksReaders(states[j - 1], actions[j - 1], t);
    }
  }

  // ---- Refinement of a lock without a word ----

  /** A read-write lock as its documentation describes it: three collections of holders. */
  datatype SimpleLock = SimpleLock(readers: multiset<Task>, upreaders: set<Task>, writers: set<Task>, value: int)

  datatype SimpleEvent =
    | Nothing
    | Read(t: Task) | ReadDone(t: Task)
    | Upread(t: Task) | UpreadDone(t: Task)
    | WriteBegin(t: Task) | WriteDone(t: Task)
    | Upgrade(t: Task) | Downgrade(t: Task)
    | Store(t: Task, v: int)

  predicate SimpleStep(l: SimpleLock, e: SimpleEvent, l': SimpleLock) {
    match e
    case Nothing => l' == l
    case Read(t) => l.writers == {} && l' == l.(readers := l.readers + multiset{t})
    case ReadDone(t) => t in l.readers && l' == l.(readers := l.readers - multiset{t})
    case Upread(t) => l.writers == {} && l.upreaders == {} && l' == l.(upreaders := {t})
    case UpreadDone(t) => l.upreaders == {t} && l' == l.(upreaders := {})
    case WriteBegin(t) =>
      l.writers == {} && l.upreaders == {} && l.readers == multiset{} && l' == l.(writers := {t})
    case WriteDone(t) => l.writers == {t} && l' == l.(writers := {})
    case Upgrade(t) =>
      l.upreaders == {t} && l.readers == multiset{} && l.writers == {} && l' == l.(upreaders := {}, writers := {t})
    case Downgrade(t) => l.writers == {t} && l' == l.(writers := {}, upreaders := {t})
    case Store(t, v) => l.writers == {t} && l' == l.(value := v)
  }

  function Upreaders(guards: multiset<Task>, pc: map<Task, Pc>): set<Task> {
    (set t | t in guards) + At(pc, Upgrading) + At(pc, Downgraded)
  }

  function WritersOf(guards: multiset<Task>, pc: map<Task, Pc>): set<Task> {
    (set t | t in guards) + At(pc, UpgradeWon)
  }

  function SimplifyActors(g: Actors, v: int): SimpleLock {
    SimpleLock(g.readGuards, Upreaders(g.upGuards, g.pc), WritersOf(g.writeGuards, g.pc), v)
  }

  /** Failed attempts and the bits of half-done operations disappear from this view. */
  function Simplify(s: State): SimpleLock {
    SimplifyActors(s.actors, s.value)
  }

  /** The one event each atomic action amounts to. */
  function EventOf(a: Action, o: Outcome): SimpleEvent {
    if !o.Granted? then Nothing else
      match a
      case TryRead(t) => Read(t)
      case DropRead(t) => ReadDone(t)
      case TryWrite(t) => WriteBegin(t)
      case DropWrite(t) => WriteDone(t)
      case TryUpread(t) => Upread(t)
      case DropUpread(t) => UpreadDone(t)
      case TryUpgrade(t) => Upgrade(t)
      case TryDowngrade(t) => Downgrade(t)
      case Write(t, v) => Store(t, v)
      case _ => Nothing
  }

  lemma Solo(m: multiset<Task>, t: Task)
    requires |m| <= 1 && t in m
    ensures m == multiset{t}
  {
    assert |m - multiset{t}| == 0;
    assert m == (m - multiset{t}) + multiset{t};
  }

  lemma SoloSet(m: set<Task>, t: Task)
    requires |m| <= 1 && t in m
    ensures m == {t}
  {
    assert |m - {t}| == 0;
    assert m == (m - {t}) + {t};
  }

  lemma EmptyAt(pc: map<Task, Pc>, c: Pc)
    requires Count(pc, c) == 0
    ensures At(pc, c) == {}
  {}

  lemma AtAfterMove(pc: map<Task, Pc>, t: Task, to: Pc, c: Pc)
    requires t in pc
    ensures At(pc[t := to], c) == if c == to then At(pc, c) + {t} else At(pc, c) - {t}
  {}

  /** Moving between positions that own nothing changes no owner. */
  lemma QuietMove(g: Actors, t: Task, to: Pc)
    requires t in g.pc
    requires g.pc[t] in {Idle, ReadRetract, UpreadRetract} && to in {Idle, ReadRetract, UpreadRetract}
    ensures Upreaders(g.upGuards, g.pc[t := to]) == Upreaders(g.upGuards, g.pc)
    ensures WritersOf(g.writeGuards, g.pc[t := to]) == WritersOf(g.writeGuards, g.pc)
  {
    AtAfterMove(g.pc, t, to, Upgrading);
    AtAfterMove(g.pc, t, to, Downgraded);
    AtAfterMove(g.pc, t, to, UpgradeWon);
  }

  /** With at most one owner, the owner found is the only one. */
  lemma OnlyUpreader(f: Fields, g: Actors, t: Task)
    requires Consistent(f, g) && t in Upreaders(g.upGuards, g.pc)
    ensures Upreaders(g.upGuards, g.pc) == {t} && WritersOf(g.writeGuards, g.pc) == {}
    ensures t in g.upGuards ==> g.upGuards == multiset{t}
  {
    EmptyAt(g.pc, UpgradeWon);
    if t in g.upGuards {
      Solo(g.upGuards, t);
    } else if t in At(g.pc, Upgrading) {
      SoloSet(At(g.pc, Upgrading), t);
    } else {
      SoloSet(At(g.pc, Downgraded), t);
    }
  }

  lemma OnlyWriter(f: Fields, g: Actors, t: Task)
    requires Consistent(f, g) && t in WritersOf(g.writeGuards, g.pc)
    ensures WritersOf(g.writeGuards, g.pc) == {t} && Upreaders(g.upGuards, g.pc) == {}
    ensures g.readGuards == multiset{}
    ensures t in g.writeGuards ==> g.writeGuards == multiset{t}
  {
    if t in g.writeGuards { Solo(g.writeGuards, t); } else { SoloSet(At(g.pc, UpgradeWon), t); }
  }

  lemma NoWriter(f: Fields, g: Actors)
    requires Consistent(f, g) && !f.writer
    ensures WritersOf(g.writeGuards, g.pc) == {}
  {
    EmptyAt(g.pc, UpgradeWon);
  }

  lemma NoUpreader(f: Fields, g: Actors)
    requires Consistent(f, g) && !f.upread
    ensures Upreaders(g.upGuards, g.pc) == {}
  {
    EmptyAt(g.pc, Upgrading);
    EmptyAt(g.pc, Downgraded);
  }

  predicate Refines(f: Fields, g: Actors, v: int, a: Action)
    requires Enabled(g, a)
  {
    var o := FieldOutcome(f, a);
    SimpleStep(SimplifyActors(g, v), EventOf(a, o),
               SimplifyActors(ActorsAfter(g, a, o), if a.Write? then a.v else v))
  }

  lemma ReadRefines(f: Fields, g: Actors, v: int, a: Action)
    requires Consistent(f, g) && Enabled(g, a) && (a.TryRead? || a.RetractRead? || a.DropRead?)
    ensures Refines(f, g, v, a)
  {
    if a.TryRead? && !f.writer { NoWriter(f, g); }
    if !a.DropRead? { QuietMove(g, a.t, if a.TryRead? then ReadRetract else Idle); }
  }

  lemma WriteRefines(f: Fields, g: Actors, v: int, a: Action)
    requires Consistent(f, g) && Enabled(g, a) && (a.TryWrite? || a.DropWrite? || a.Write?)
    ensures Refines(f, g, v, a)
  {
    if a.TryWrite? {
      if FieldOutcome(f, a).Granted? { NoWriter(f, g); NoUpreader(f, g); }
    } else {
      OnlyWriter(f, g, a.t);
    }
  }

  lemma TryUpreadRefines(f: Fields, g: Actors, v: int, t: Task)
    requires Consistent(f, g) && Enabled(g, TryUpread(t))
    ensures Refines(f, g, v, TryUpread(t))
  {
    if FieldOutcome(f, TryUpread(t)).Granted? {
      NoWriter(f, g);
      NoUpreader(f, g);
      assert Upreaders(g.upGuards + multiset{t}, g.pc) == {t};
    } else {
      QuietMove(g, t, UpreadRetract);
    }
  }

  lemma DropUpreadRefines(f: Fields, g: Actors, v: int, a: Action)
    requires Consistent(f, g) && Enabled(g, a) && (a.RetractUpread? || a.DropUpread?)
    ensures Refines(f, g, v, a)
  {
    if a.RetractUpread? {
      QuietMove(g, a.t, Idle);
    } else {
      OnlyUpreader(f, g, a.t);
      EmptyAt(g.pc, Upgrading);
      EmptyAt(g.pc, Downgraded);
      assert Upreaders(g.upGuards - multiset{a.t}, g.pc) == {};
    }
  }

  lemma BeginUpgradeRefines(f: Fields, g: Actors, v: int, t: Task)
    requires Consistent(f, g) && Enabled(g, BeginUpgrade(t))
    ensures Refines(f, g, v, BeginUpgrade(t))
  {
    OnlyUpreader(f, g, t);
    AtAfterMove(g.pc, t, Upgrading, Upgrading);
    AtAfterMove(g.pc, t, Upgrading, Downgraded);
    AtAfterMove(g.pc, t, Upgrading, UpgradeWon);
    assert Upreaders(g.upGuards - multiset{t}, g.pc[t := Upgrading]) == {t};
  }

  lemma TryUpgradeRefines(f: Fields, g: Actors, v: int, t: Task)
    requires Consistent(f, g) && Enabled(g, TryUpgrade(t))
    ensures Refines(f, g, v, TryUpgrade(t))
  {
    OnlyUpreader(f, g, t);
    AtAfterMove(g.pc, t, UpgradeWon, Upgrading);
    AtAfterMove(g.pc, t, UpgradeWon, Downgraded);
    AtAfterMove(g.pc, t, UpgradeWon, UpgradeWon);
    CountPositive(g.pc, t);
    assert Upreaders(g.upGuards, g.pc[t := UpgradeWon]) == {};
    assert WritersOf(g.writeGuards, g.pc[t := UpgradeWon]) == {t};
  }

  lemma FinishUpgradeRefines(f: Fields, g: Actors, v: int, t: Task)
    requires Consistent(f, g) && Enabled(g, FinishUpgrade(t))
    ensures Refines(f, g, v, FinishUpgrade(t))
  {
    OnlyWriter(f, g, t);
    AtAfterMove(g.pc, t, Idle, Upgrading);
    AtAfterMove(g.pc, t, Idle, Downgraded);
    AtAfterMove(g.pc, t, Idle, UpgradeWon);
    CountPositive(g.pc, t);
    assert Upreaders(g.upGuards, g.pc[t := Idle]) == {};
    assert WritersOf(g.writeGuards + multiset{t}, g.pc[t := Idle]) == {t};
  }

  lemma TryDowngradeRefines(f: Fields, g: Actors, v: int, t: Task)
    requires Consistent(f, g) && Enabled(g, TryDowngrade(t))
    ensures Refines(f, g, v, TryDowngrade(t))
  {
    OnlyWriter(f, g, t);
    AtAfterMove(g.pc, t, Downgraded, Upgrading);
    AtAfterMove(g.pc, t, Downgraded, Downgraded);
    AtAfterMove(g.pc, t, Downgraded, UpgradeWon);
    assert Upreaders(g.upGuards, g.pc[t := Downgraded]) == {t};
    assert WritersOf(g.writeGuards - multiset{t}, g.pc[t := Downgraded]) == {};
  }

  lemma FinishDowngradeRefines(f: Fields, g: Actors, v: int, t: Task)
    requires Consistent(f, g) && Enabled(g, FinishDowngrade(t))
    ensures Refines(f, g, v, FinishDowngrade(t))
  {
    OnlyUpreader(f, g, t);
    AtAfterMove(g.pc, t, Idle, Upgrading);
    AtAfterMove(g.pc, t, Idle, Downgraded);
    AtAfterMove(g.pc, t, Idle, UpgradeWon);
    CountPositive(g.pc, t);
    assert Upreaders(g.upGuards + multiset{t}, g.pc[t := Idle]) == {t};
  }

  /** Every atomic action, seen through `Simplify`, is one step of the simple lock. */
  lemma StepRefines(s: State, a: Action)
    requires Inv(s) && Enabled(s.actors, a)
    ensures SimpleStep(Simplify(s), EventOf(a, OutcomeOf(s.word, a)), Simplify(Step(s, a)))
  {
    var f, g := Decode(s.word), s.actors;
    OutcomeByFields(s.word, a);
    if a.TryRead? || a.RetractRead? || a.DropRead? { ReadRefines(f, g, s.value, a); }
    else if a.TryWrite? || a.DropWrite? || a.Write? { WriteRefines(f, g, s.value, a); }
    else if a.TryUpread? { TryUpreadRefines(f, g, s.value, a.t); }
    else if a.RetractUpread? || a.DropUpread? { DropUpreadRefines(f, g, s.value, a); }
    else if a.BeginUpgrade? { BeginUpgradeRefines(f, g, s.value, a.t); }
    else if a.TryUpgrade? { TryUpgradeRefines(f, g, s.value, a.t); }
    else if a.FinishUpgrade? { FinishUpgradeRefines(f, g, s.value, a.t); }
    else if a.TryDowngrade? { TryDowngradeRefines(f, g, s.value, a.t); }
    else { FinishDowngradeRefines(f, g, s.value, a.t); }
  }

  /** Every run of the word-based lock is a run of the simple lock. */
  lemma RunRefines(states: seq<State>, actions: seq<Action>)
    requires IsRun(states, actions)
    ensures Simplify(states[0]) == SimpleLock(multiset{}, {}, {}, states[0].value)
    ensures forall i | 0 <= i < |actions| ::
              SimpleStep(Simplify(states[i]), EventOf(actions[i], OutcomeOf(states[i].word, actions[i])),
                         Simplify(states[i + 1]))
  {
    forall i | 0 <= i < |actions|
      ensures SimpleStep(Simplify(states[i]), EventOf(actions[i], OutcomeOf(states[i].word, actions[i])),
                         Simplify(states[i + 1]))
    {
      RunInv(states, actions, i);
      assert StepAt(states, actions, i);
      StepRefines(states[i], actions[i]);
    }
  }
}
