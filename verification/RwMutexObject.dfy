/**
 `RwMutex` as an object: the operations of the source, each atomic operation on the word written as
 the code performs it, with any behaviour of the other tasks in between.

 What the other tasks do between two atomic operations of one call is an input: a sequence of
 actions, of which those that are possible are carried out. Every contract therefore holds for every
 interleaving. `RwLock` has the same operations except `Downgrade`. The spinning loops end here when
 the given interleaving is used up, with a result that says that the call has not returned yet.
 */
module RwMutexObject {
  import opened Bits
  import opened LockWord
  import opened RwProtocol
  import opened RwTheorems

  /** Whom an operation wakes in the wait queue at its end. */
  datatype Wake = WakeNobody | WakeOne | WakeAll

  /** An action, where it is possible. */
  function Do(s: State, a: Action): State {
    if Enabled(s.actors, a) then Step(s, a) else s
  }

  /** What the other tasks make of a state when they run the given schedule. */
  function Along(s: State, me: Task, schedule: seq<Action>): State {
    if schedule == [] then s else
    var s', a := Along(s, me, schedule[..|schedule| - 1]), schedule[|schedule| - 1];
    if a.t != me then Do(s', a) else s'
  }

  /** The state that the next attempt of a spinning call finds after the given rounds, none of which succeeded. */
  function AfterRounds(s: State, me: Task, rounds: seq<seq<Action>>): State {
    if rounds == [] then s else
    Along(AfterRounds(s, me, rounds[..|rounds| - 1]), me, rounds[|rounds| - 1])
  }

  /** One of the first `n` attempts, one after each round, finds the word. */
  predicate Meets(s: State, me: Task, rounds: seq<seq<Action>>, n: nat, w: Word)
    requires n <= |rounds|
  {
    exists i | 0 < i <= n :: AfterRounds(s, me, rounds[..i]).word == w
  }

  lemma NextRound(s: State, me: Task, rounds: seq<seq<Action>>, i: nat, w: Word)
    requires i < |rounds|
    ensures AfterRounds(s, me, rounds[..i + 1]) == Along(AfterRounds(s, me, rounds[..i]), me, rounds[i])
    ensures Meets(s, me, rounds, i + 1, w) <==>
              Meets(s, me, rounds, i, w) || AfterRounds(s, me, rounds[..i + 1]).word == w
    ensures Meets(s, me, rounds, i + 1, w) ==> Meets(s, me, rounds, |rounds|, w)
  {
    assert rounds[..i + 1][..i] == rounds[..i];
  }

  lemma {:induction false} QuietRounds(s: State, me: Task, rounds: seq<seq<Action>>)
    requires Undisturbed(rounds)
    ensures AfterRounds(s, me, rounds) == s
  {
    if rounds != [] { QuietRounds(s, me, rounds[..|rounds| - 1]); }
  }

  /** Nobody else does anything. */
  predicate Undisturbed(rounds: seq<seq<Action>>) {
    forall i | 0 <= i < |rounds| :: rounds[i] == []
  }

  /** Undisturbed, every attempt finds the same word. */
  lemma QuietMeets(s: State, me: Task, rounds: seq<seq<Action>>, w: Word)
    requires rounds != [] && Undisturbed(rounds)
    ensures Meets(s, me, rounds, |rounds|, w) <==> s.word == w
  {
    forall i | 0 < i <= |rounds| ensures AfterRounds(s, me, rounds[..i]) == s { QuietRounds(s, me, rounds[..i]); }
    assert AfterRounds(s, me, rounds[..1]) == s;
  }

  /** An upgrade that nobody disturbs succeeds exactly if there is no other reader. */
  lemma QuietUpgrade(s: State, me: Task, rounds: seq<seq<Action>>)
    requires Inv(s) && Enabled(s.actors, BeginUpgrade(me))
    ensures rounds != [] && Undisturbed(rounds) ==>
              (Meets(Do(s, BeginUpgrade(me)), me, rounds, |rounds|, UPGRADING_WORD) <==> Decode(s.word).readers == 0)
  {
    if rounds != [] && Undisturbed(rounds) {
      QuietMeets(Do(s, BeginUpgrade(me)), me, rounds, UPGRADING_WORD);
      BeginsUpgrading(s, me);
    }
  }

  lemma BeginsUpgrading(s: State, me: Task)
    requires Inv(s) && Enabled(s.actors, BeginUpgrade(me))
    ensures Step(s, BeginUpgrade(me)).word == UPGRADING_WORD <==> Decode(s.word).readers == 0
  {
    StepInv(s, BeginUpgrade(me));
    DecodesTo(Step(s, BeginUpgrade(me)).word, UPGRADING_WORD, Fields(false, true, true, 0));
    SoleUpreader(s, me);
    assert |s.actors.upGuards| == 1;
  }

  class RwMutex {
    var lock: Word
    var val: int
    /** Who holds what. The source keeps this in guards and in the position of each call. */
    var actors: Actors

    ghost function View(): State
      reads this
    {
      State(lock, val, actors)
    }

    ghost predicate Valid()
      reads this
    {
      Inv(View())
    }

    constructor (v: int, tasks: set<Task>)
      requires |tasks| < MAX_READER
      ensures Valid() && Init(View()) && val == v && actors.pc.Keys == tasks
    {
      lock := 0;
      val := v;
      actors := Actors(map t | t in tasks :: Idle, multiset{}, multiset{}, multiset{});
      new;
      assert actors.pc.Keys == tasks;
      InitInv(View());
    }

    /** One action of another task, where it is possible. */
    method OtherStep(me: Task, a: Action)
      requires Valid() && me in actors.pc && a.t != me
      modifies this
      ensures Valid() && SameFor(me, old(actors), actors) && View() == Do(old(View()), a)
      ensures Holds(old(actors), me) ==> val == old(val)
    {
      if Enabled(actors, a) {
        OthersStep(View(), a, me);
        var prev := lock;
        lock := WordAfter(prev, a);
        val := if a.Write? then a.v else val;
        actors := ActorsAfter(actors, a, OutcomeOf(prev, a));
      }
    }

    /** The other tasks run for a while. */
    method Others(me: Task, schedule: seq<Action>)
      requires Valid() && me in actors.pc
      modifies this
      ensures Valid() && SameFor(me, old(actors), actors) && View() == Along(old(View()), me, schedule)
      ensures Holds(old(actors), me) ==> val == old(val)
    {
      for i := 0 to |schedule|
        invariant Valid() && SameFor(me, old(actors), actors) && View() == Along(old(View()), me, schedule[..i])
        invariant Holds(old(actors), me) ==> val == old(val)
      {
        assert schedule[..i + 1][..i] == schedule[..i];
        if schedule[i].t != me { OtherStep(me, schedule[i]); }
      }
      assert schedule[..|schedule|] == schedule;
    }

    /** The other tasks run for a while and cannot change what `me` holds. */
    method OthersWhileHeld(me: Task, schedule: seq<Action>)
      requires Valid() && me in actors.pc && Holds(actors, me)
      modifies this
      ensures Valid() && SameFor(me, old(actors), actors) && val == old(val)
      ensures View() == Along(old(View()), me, schedule)
    {
      Others(me, schedule);
    }

    /** `try_read`: a failed attempt adds first and subtracts in a second atomic operation. */
    method TryRead(me: Task, between: seq<Action>) returns (granted: bool)
      requires Valid() && Enabled(actors, RwProtocol.TryRead(me))
      modifies this
      ensures Valid() && Returned(actors, me)
      ensures var f := Decode(old(lock)); granted <==> !f.writer && !f.upgrading && f.readers < MAX_READER
      ensures actors.readGuards[me] == old(actors).readGuards[me] + if granted then 1 else 0
      ensures actors.upGuards[me] == old(actors).upGuards[me] && actors.writeGuards[me] == old(actors).writeGuards[me]
      ensures granted ==> lock == old(lock) + READER && val == old(val)
      ensures !granted ==>
        View() == Do(Along(Do(old(View()), RwProtocol.TryRead(me)), me, between), RetractRead(me))
    {
      StepInv(View(), RwProtocol.TryRead(me));
      ReadBlockedExactly(lock);
      StepStaysInWord(View(), RwProtocol.TryRead(me));
      var prev := lock;
      lock := FetchAdd(prev, READER);
      if !ReadBlocked(prev) {
        actors := actors.(readGuards := actors.readGuards + multiset{me});
        return true;
      }
      actors := actors.(pc := actors.pc[me := ReadRetract]);
      Others(me, between);
      StepInv(View(), RetractRead(me));
      lock := FetchSub(lock, READER);
      actors := actors.(pc := actors.pc[me := Idle]);
      return false;
    }

    method TryWrite(me: Task) returns (granted: bool)
      requires Valid() && Enabled(actors, RwProtocol.TryWrite(me))
      modifies this
      ensures Valid() && Returned(actors, me) && val == old(val)
      ensures granted <==> old(lock) == 0
      ensures granted ==> lock == WRITER && actors == old(actors).(writeGuards := multiset{me})
                          && actors.readGuards == actors.upGuards == multiset{}
      ensures !granted ==> View() == old(View())
    {
      StepInv(View(), RwProtocol.TryWrite(me));
      EmptyWord(View());
      if lock == 0 {
        lock := WRITER;
        actors := actors.(writeGuards := actors.writeGuards + multiset{me});
        return true;
      }
      return false;
    }

    /** `try_upread`: meeting a writer, it has set a bit that it must clear again. */
    method TryUpread(me: Task, between: seq<Action>) returns (granted: bool)
      requires Valid() && Enabled(actors, RwProtocol.TryUpread(me))
      modifies this
      ensures Valid() && Returned(actors, me)
      ensures granted <==> !old(Decode(lock)).writer && !old(Decode(lock)).upread
      ensures granted ==> actors.upGuards == multiset{me} && val == old(val)
      ensures !granted ==> actors.upGuards[me] == old(actors).upGuards[me]
      ensures !granted && old(Decode(lock)).upread ==> View() == old(View())
      ensures !granted && !old(Decode(lock)).upread ==>
        View() == Do(Along(Do(old(View()), RwProtocol.TryUpread(me)), me, between), RetractUpread(me))
      ensures actors.readGuards[me] == old(actors).readGuards[me]
      ensures actors.writeGuards[me] == old(actors).writeGuards[me]
    {
      StepInv(View(), RwProtocol.TryUpread(me));
      UpreadSeenExactly(lock);
      NoUpGuards(View());
      SameWord(lock, FetchOr(lock, UPGRADEABLE_READER));
      var prev := lock;
      lock := FetchOr(prev, UPGRADEABLE_READER);
      var seen := And(prev, UPGRADED_WORD);
      if seen == 0 {
        actors := actors.(upGuards := actors.upGuards + multiset{me});
        return true;
      } else if seen == WRITER {
        actors := actors.(pc := actors.pc[me := UpreadRetract]);
        Others(me, between);
        StepInv(View(), RetractUpread(me));
        lock := FetchSub(lock, UPGRADEABLE_READER);
        actors := actors.(pc := actors.pc[me := Idle]);
      }
      return false;
    }

    /** The last reader wakes one waiter, exactly when it leaves the lock free. */
    method DropRead(me: Task) returns (wake: Wake)
      requires Valid() && Enabled(actors, RwProtocol.DropRead(me))
      modifies this
      ensures Valid() && lock == old(lock) - READER && val == old(val)
      ensures actors == old(actors).(readGuards := old(actors).readGuards - multiset{me})
      ensures wake == if lock == 0 then WakeOne else WakeNobody
    {
      StepInv(View(), RwProtocol.DropRead(me));
      StepStaysInWord(View(), RwProtocol.DropRead(me));
      var prev := lock;
      lock := FetchSub(prev, READER);
      actors := actors.(readGuards := actors.readGuards - multiset{me});
      wake := if prev == READER then WakeOne else WakeNobody;
    }

    /** The writer wakes everybody. */
    method DropWrite(me: Task) returns (wake: Wake)
      requires Valid() && Enabled(actors, RwProtocol.DropWrite(me))
      modifies this
      ensures Valid() && val == old(val) && Decode(lock) == Decode(old(lock)).(writer := false)
      ensures actors == old(actors).(writeGuards := multiset{}) && wake == WakeAll
    {
      StepInv(View(), RwProtocol.DropWrite(me));
      Solo(actors.writeGuards, me);
      lock := FetchAnd(lock, Not(WRITER));
      actors := actors.(writeGuards := actors.writeGuards - multiset{me});
      wake := WakeAll;
    }

    /** The upgradeable reader wakes everybody exactly when it leaves the lock free. */
    method DropUpread(me: Task) returns (wake: Wake)
      requires Valid() && Enabled(actors, RwProtocol.DropUpread(me))
      modifies this
      ensures Valid() && val == old(val) && lock == old(lock) - UPGRADEABLE_READER
      ensures actors == old(actors).(upGuards := multiset{})
      ensures wake == if lock == 0 then WakeAll else WakeNobody
    {
      StepInv(View(), RwProtocol.DropUpread(me));
      StepStaysInWord(View(), RwProtocol.DropUpread(me));
      Solo(actors.upGuards, me);
      var prev := lock;
      lock := FetchSub(prev, UPGRADEABLE_READER);
      actors := actors.(upGuards := actors.upGuards - multiset{me});
      wake := if prev == UPGRADEABLE_READER then WakeAll else WakeNobody;
    }

    /** The old upgradeable guard is dropped once the upgrade has won. */
    method EndUpgrade(me: Task)
      requires Valid() && Enabled(actors, FinishUpgrade(me))
      modifies this
      ensures Valid() && val == old(val) && lock == old(lock) - UPGRADEABLE_READER
      ensures Returned(actors, me) && actors.writeGuards == multiset{me}
      ensures actors.readGuards == actors.upGuards == multiset{}
      ensures View() == Do(old(View()), FinishUpgrade(me))
    {
      ghost var s := View();
      StepInv(s, FinishUpgrade(me));
      StepStaysInWord(s, FinishUpgrade(me));
      UpgradeSteps(s, me);
      lock := FetchSub(lock, UPGRADEABLE_READER);
      actors := actors.(pc := actors.pc[me := Idle], writeGuards := actors.writeGuards + multiset{me});
      SoleWriter(View(), me);
    }

    /** The compare-exchange of `try_upgrade`. */
    method WinUpgrade(me: Task) returns (won: bool)
      requires Valid() && Enabled(actors, RwProtocol.TryUpgrade(me))
      modifies this
      ensures Valid() && View() == Step(old(View()), RwProtocol.TryUpgrade(me))
      ensures won <==> old(lock) == UPGRADING_WORD
    {
      ghost var s := View();
      StepInv(s, RwProtocol.TryUpgrade(me));
      won := lock == UPGRADING_WORD;
      if won {
        UpgradeSteps(s, me);
        lock := UPGRADED_WORD;
        actors := actors.(pc := actors.pc[me := UpgradeWon]);
      }
    }

    /** `try_upgrade`: the compare-exchange, and on success the subtraction that clears the upgradeable bit. */
    method TryUpgrade(me: Task, between: seq<Action>) returns (done: bool)
      requires Valid() && Enabled(actors, RwProtocol.TryUpgrade(me))
      modifies this
      ensures Valid() && val == old(val)
      ensures done <==> old(lock) == UPGRADING_WORD
      ensures done ==> HoldsAlone(actors, me)
      ensures done ==>
        View() == Do(Along(Do(old(View()), RwProtocol.TryUpgrade(me)), me, between), FinishUpgrade(me))
      ensures !done ==> View() == old(View())
    {
      done := WinUpgrade(me);
      if done {
        OthersWhileHeld(me, between);
        EndUpgrade(me);
      }
    }

    /** One round of the loop of `upgrade`. */
    method UpgradeRound(me: Task, round: seq<Action>, between: seq<Action>) returns (done: bool)
      requires Valid() && Enabled(actors, RwProtocol.TryUpgrade(me))
      modifies this
      ensures Valid() && val == old(val)
      ensures done <==> Along(old(View()), me, round).word == UPGRADING_WORD
      ensures done ==> HoldsAlone(actors, me)
      ensures !done ==> View() == Along(old(View()), me, round) && Enabled(actors, RwProtocol.TryUpgrade(me))
    {
      OthersWhileHeld(me, round);
      done := TryUpgrade(me, between);
    }

    /** The loop of `upgrade`. */
    method UpgradeLoop(me: Task, rounds: seq<seq<Action>>, between: seq<Action>) returns (done: bool)
      requires Valid() && Enabled(actors, RwProtocol.TryUpgrade(me))
      modifies this
      ensures Valid() && val == old(val)
      ensures done <==> Meets(old(View()), me, rounds, |rounds|, UPGRADING_WORD)
      ensures done ==> HoldsAlone(actors, me)
      ensures !done ==> View() == AfterRounds(old(View()), me, rounds) && Enabled(actors, RwProtocol.TryUpgrade(me))
    {
      ghost var s := View();
      for i := 0 to |rounds|
        invariant Valid() && val == old(val) && Enabled(actors, RwProtocol.TryUpgrade(me))
        invariant View() == AfterRounds(s, me, rounds[..i]) && !Meets(s, me, rounds, i, UPGRADING_WORD)
      {
        NextRound(s, me, rounds, i, UPGRADING_WORD);
        done := UpgradeRound(me, rounds[i], between);
        if done { return; }
      }
      assert rounds[..|rounds|] == rounds;
      return false;
    }

    /**
     `upgrade`: sets `BEING_UPGRADED`, then tries until the compare-exchange succeeds: it returns
     exactly if one of its attempts finds the bits of an upgrade and no reader. Whatever happens in
     between, the value is the one the caller last read.
     */
    method Upgrade(me: Task, rounds: seq<seq<Action>>, between: seq<Action>) returns (done: bool)
      requires Valid() && Enabled(actors, BeginUpgrade(me))
      modifies this
      ensures Valid() && val == old(val)
      ensures done ==> HoldsAlone(actors, me)
      ensures !done ==> me in actors.pc && actors.pc[me].Upgrading?
      ensures done <==> Meets(Do(old(View()), BeginUpgrade(me)), me, rounds, |rounds|, UPGRADING_WORD)
      ensures !done ==> View() == AfterRounds(Do(old(View()), BeginUpgrade(me)), me, rounds)
      ensures rounds != [] && Undisturbed(rounds) ==> (done <==> Decode(old(lock)).readers == 0)
    {
      QuietUpgrade(View(), me, rounds);
      SetBeingUpgraded(me);
      done := UpgradeLoop(me, rounds, between);
    }

    /** The first atomic operation of `upgrade`. */
    method SetBeingUpgraded(me: Task)
      requires Valid() && Enabled(actors, BeginUpgrade(me))
      modifies this
      ensures Valid() && val == old(val) && View() == Do(old(View()), BeginUpgrade(me))
      ensures Enabled(actors, RwProtocol.TryUpgrade(me))
    {
      StepInv(View(), BeginUpgrade(me));
      lock := FetchOr(lock, BEING_UPGRADED);
      actors := actors.(pc := actors.pc[me := Upgrading], upGuards := actors.upGuards - multiset{me});
    }

    /** The old write guard is dropped once the downgrade has won. */
    method EndDowngrade(me: Task)
      requires Valid() && Enabled(actors, FinishDowngrade(me))
      modifies this
      ensures Valid() && val == old(val) && lock == old(lock)
      ensures Returned(actors, me) && actors.upGuards == multiset{me} && actors.writeGuards == multiset{}
      ensures View() == Do(old(View()), FinishDowngrade(me))
    {
      ghost var s := View();
      StepInv(s, FinishDowngrade(me));
      DowngradeSteps(s, me);
      CountPositive(actors.pc, me);
      ClearWriter(lock);
      lock := FetchAnd(lock, Not(WRITER));
      actors := actors.(pc := actors.pc[me := Idle], upGuards := actors.upGuards + multiset{me});
      SoleUpreader(View(), me);
    }

    /** The compare-exchange of `try_downgrade`. */
    method WinDowngrade(me: Task) returns (won: bool)
      requires Valid() && Enabled(actors, RwProtocol.TryDowngrade(me))
      modifies this
      ensures Valid() && View() == Step(old(View()), RwProtocol.TryDowngrade(me))
      ensures won <==> old(lock) == WRITER
    {
      ghost var s := View();
      StepInv(s, RwProtocol.TryDowngrade(me));
      won := lock == WRITER;
      if won {
        DowngradeSteps(s, me);
        lock := UPGRADEABLE_READER;
        actors := actors.(pc := actors.pc[me := Downgraded], writeGuards := actors.writeGuards - multiset{me});
      }
    }

    /** `try_downgrade`: the compare-exchange, and on success the trailing `fetch_and`. */
    method TryDowngrade(me: Task, between: seq<Action>) returns (done: bool, wake: Wake)
      requires Valid() && Enabled(actors, RwProtocol.TryDowngrade(me))
      modifies this
      ensures Valid() && val == old(val)
      ensures done <==> old(lock) == WRITER
      ensures wake == if done then WakeAll else WakeNobody
      ensures done ==> Returned(actors, me) && actors.upGuards == multiset{me} && actors.writeGuards == multiset{}
      ensures done ==>
        View() == Do(Along(Do(old(View()), RwProtocol.TryDowngrade(me)), me, between), FinishDowngrade(me))
      ensures !done ==> View() == old(View())
    {
      done := WinDowngrade(me);
      if done {
        OthersWhileHeld(me, between);
        EndDowngrade(me);
      }
      wake := if done then WakeAll else WakeNobody;
    }

    /** One round of the loop of `downgrade`. */
    method DowngradeRound(me: Task, round: seq<Action>, between: seq<Action>) returns (done: bool, wake: Wake)
      requires Valid() && Enabled(actors, RwProtocol.TryDowngrade(me))
      modifies this
      ensures Valid() && val == old(val) && Returned(actors, me)
      ensures done <==> Along(old(View()), me, round).word == WRITER
      ensures done ==> actors.upGuards == multiset{me} && actors.writeGuards == multiset{}
      ensures !done ==> View() == Along(old(View()), me, round) && actors.writeGuards == multiset{me}
      ensures wake == if done then WakeAll else WakeNobody
    {
      OthersWhileHeld(me, round);
      SoleWriter(View(), me);
      done, wake := TryDowngrade(me, between);
    }

    /**
     `downgrade`: returns exactly if one of its attempts finds the writer's bit and nothing else. The
     value the writer left is the value the upgradeable guard sees.
     */
    method Downgrade(me: Task, rounds: seq<seq<Action>>, between: seq<Action>) returns (done: bool, wake: Wake)
      requires Valid() && Enabled(actors, RwProtocol.TryDowngrade(me))
      modifies this
      ensures Valid() && val == old(val) && Returned(actors, me)
      ensures done ==> actors.upGuards == multiset{me} && actors.writeGuards == multiset{}
      ensures !done ==> actors.writeGuards == multiset{me}
      ensures wake == if done then WakeAll else WakeNobody
      ensures done <==> Meets(old(View()), me, rounds, |rounds|, WRITER)
      ensures !done ==> View() == AfterRounds(old(View()), me, rounds)
      ensures rounds != [] && Undisturbed(rounds) ==> (done <==> old(lock) == WRITER)
    {
      ghost var s := View();
      if rounds != [] && Undisturbed(rounds) { QuietMeets(s, me, rounds, WRITER); }
      SoleWriter(View(), me);
      for i := 0 to |rounds|
        invariant Valid() && val == old(val) && Returned(actors, me) && actors.writeGuards == multiset{me}
        invariant View() == AfterRounds(s, me, rounds[..i]) && !Meets(s, me, rounds, i, WRITER)
      {
        NextRound(s, me, rounds, i, WRITER);
        done, wake := DowngradeRound(me, rounds[i], between);
        if done { return; }
      }
      assert rounds[..|rounds|] == rounds;
      return false, WakeNobody;
    }
  }

  /** The granted compare-exchange of `try_downgrade` and its trailing `fetch_and`, written out. */
  lemma DowngradeSteps(s: State, t: Task)
    ensures var g := s.actors;
            Enabled(g, TryDowngrade(t)) && s.word == WRITER
            ==> Step(s, TryDowngrade(t)) == State(UPGRADEABLE_READER, s.value,
                  g.(pc := g.pc[t := Downgraded], writeGuards := g.writeGuards - multiset{t}))
    ensures var g := s.actors;
            Enabled(g, FinishDowngrade(t))
            ==> Step(s, FinishDowngrade(t)) == State(FetchAnd(s.word, Not(WRITER)), s.value,
                  g.(pc := g.pc[t := Idle], upGuards := g.upGuards + multiset{t}))
  {}

  /** The granted compare-exchange of `try_upgrade` and its subtraction, written out. */
  lemma UpgradeSteps(s: State, t: Task)
    ensures var g := s.actors;
            Enabled(g, TryUpgrade(t)) && s.word == UPGRADING_WORD
            ==> Step(s, TryUpgrade(t)) == State(UPGRADED_WORD, s.value, g.(pc := g.pc[t := UpgradeWon]))
    ensures var g := s.actors;
            Enabled(g, FinishUpgrade(t))
            ==> Step(s, FinishUpgrade(t)) == State(FetchSub(s.word, UPGRADEABLE_READER), s.value,
                  g.(pc := g.pc[t := Idle], writeGuards := g.writeGuards + multiset{t}))
  {}

  predicate Returned(g: Actors, t: Task) {
    t in g.pc && g.pc[t].Idle?
  }

  /** `t` has the write guard, and there is no other guard. */
  predicate HoldsAlone(g: Actors, t: Task) {
    Returned(g, t) && g.writeGuards == multiset{t} && g.readGuards == g.upGuards == multiset{}
  }

  /** What one task owns is the same in both. */
  predicate SameFor(t: Task, g: Actors, g': Actors) {
    && (t in g'.pc <==> t in g.pc) && (t in g.pc ==> g'.pc[t] == g.pc[t])
    && g'.readGuards[t] == g.readGuards[t]
    && g'.upGuards[t] == g.upGuards[t]
    && g'.writeGuards[t] == g.writeGuards[t]
  }

  /** `t` may read or write the value, or is between two guards that may. */
  predicate Holds(g: Actors, t: Task) {
    HasAccess(g, t) || t in g.writeGuards
  }

  /** A step of another task leaves `me` alone, and leaves the value alone while `me` holds it. */
  lemma OthersStep(s: State, a: Action, me: Task)
    requires Inv(s) && Enabled(s.actors, a) && a.t != me
    ensures Inv(Step(s, a)) && SameFor(me, s.actors, Step(s, a).actors)
    ensures Holds(s.actors, me) ==> Step(s, a).value == s.value
  {
    StepInv(s, a);
    OthersLeaveAlone(s, a, me);
    if HasAccess(s.actors, me) { AccessBlocksWrites(s, a, me); }
    else if me in s.actors.writeGuards { Solo(s.actors.writeGuards, me); }
  }

  lemma EmptyWord(s: State)
    requires Inv(s)
    ensures s.word == 0 ==> s.actors.readGuards == s.actors.upGuards == s.actors.writeGuards == multiset{}
  {
    DecodesTo(s.word, 0, Fields(false, false, false, 0));
  }

  lemma SameWord(w: Word, w': Word)
    ensures Decode(w') == Decode(w) ==> w' == w
  {
    Layout(w);
    DecodesTo(w', w, Decode(w));
  }

  lemma NoUpGuards(s: State)
    requires Inv(s)
    ensures !Decode(s.word).upread ==> s.actors.upGuards == multiset{}
  {}

  lemma SoleWriter(s: State, t: Task)
    requires Inv(s) && t in s.actors.writeGuards
    ensures s.actors.writeGuards == multiset{t} && s.actors.readGuards == s.actors.upGuards == multiset{}
  {
    Solo(s.actors.writeGuards, t);
  }

  lemma SoleUpreader(s: State, t: Task)
    requires Inv(s) && t in s.actors.upGuards
    ensures s.actors.upGuards == multiset{t} && s.actors.writeGuards == multiset{}
  {
    Solo(s.actors.upGuards, t);
  }
}
