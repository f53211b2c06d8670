/**
 * The goal and streak state machine of DailySprout.
 *
 * Dates are whole calendar days (`Day`), counted from a fixed origin in the
 * device's calendar; the current day is always passed in as `today`, so every
 * call of the calendar and of the clock becomes a parameter. Persistence
 * (the key-value store and its JSON encoding) is abstracted to plain values.
 */
module Models {
  import opened Wrappers

  /** A calendar day: the start of day of some instant, as a day number. */
  type Day = int

  /** A goal's UUID, drawn by the caller; the model never compares two of them. */
  type GoalId = nat

  /** One micro-goal of today's list. `dateCreated` is the instant it was added. */
  datatype DailyGoal = DailyGoal(id: GoalId, text: string, isCompleted: bool, dateCreated: int)

  /** The three running counters and the day of the last qualifying completion. */
  datatype StreakData = StreakData(
    currentStreak: int,
    longestStreak: int,
    totalWins: int,
    lastCompletionDay: Option<Day>)

  /** The record a fresh install starts from (all counters zero, no completion yet). */
  const NoStreak := StreakData(0, 0, 0, None)

  /**
   * What the counters keep whenever they were only changed by completions:
   * the current streak never exceeds the longest, the longest never exceeds
   * the number of wins, there is a completion day exactly when there was a
   * win, and after a win the current streak is at least one.
   */
  predicate StreakValid(s: StreakData) {
    && 0 <= s.currentStreak <= s.longestStreak <= s.totalWins
    && (s.lastCompletionDay.None? <==> s.totalWins == 0)
    && (s.lastCompletionDay.Some? ==> s.currentStreak >= 1)
  }

  function Max(a: int, b: int): int {
    if a >= b then a else b
  }

  // ---------------------------------------------------------------------------
  // StreakData.canIncrementToday and StreakData.updateStreak
  // ---------------------------------------------------------------------------

  /** A completion may count today unless the last one already fell on today. */
  function CanIncrementToday(s: StreakData, today: Day): (b: bool)
    ensures b <==> s.lastCompletionDay != Some(today)
  {
    match s.lastCompletionDay
    case None => true
    case Some(last) => last != today
  }

  /** The current streak after a completion on `today`: start, extend, restart or keep. */
  function NextCurrentStreak(s: StreakData, today: Day): int {
    match s.lastCompletionDay
    case None => 1
    case Some(last) =>
      var daysBetween := today - last;
      if daysBetween == 1 then s.currentStreak + 1
      else if daysBetween > 1 then 1
      else s.currentStreak
  }

  /** The record `updateStreak` leaves behind when it runs on `today`. */
  function StreakAfterCompletion(s: StreakData, today: Day): (r: StreakData)
    ensures r.totalWins == s.totalWins + 1
    ensures r.lastCompletionDay == Some(today)
    ensures r.longestStreak >= r.currentStreak && r.longestStreak >= s.longestStreak
    ensures r.currentStreak == 1 || r.currentStreak == s.currentStreak + 1 || r.currentStreak == s.currentStreak
  {
    var current := NextCurrentStreak(s, today);
    StreakData(current, Max(s.longestStreak, current), s.totalWins + 1, Some(today))
  }

  /** The mutating `updateStreak`, field by field as the app performs it. */
  method UpdateStreak(s: StreakData, today: Day) returns (r: StreakData)
    ensures r == StreakAfterCompletion(s, today)
  {
    r := s;
    if r.lastCompletionDay.Some? {
      var daysBetween := today - r.lastCompletionDay.value;
      if daysBetween == 1 {
        r := r.(currentStreak := r.currentStreak + 1);
      } else if daysBetween > 1 {
        r := r.(currentStreak := 1);
      }
    } else {
      r := r.(currentStreak := 1);
    }
    if r.currentStreak > r.longestStreak {
      r := r.(longestStreak := r.currentStreak);
    }
    r := r.(totalWins := r.totalWins + 1);
    r := r.(lastCompletionDay := Some(today));
  }

  /** The case split of `updateStreak`, and what it does to the other three fields. */
  lemma StreakAfterCompletionCases(s: StreakData, today: Day)
    ensures var r := StreakAfterCompletion(s, today);
      && (s.lastCompletionDay.None? ==> r.currentStreak == 1)
      && (s.lastCompletionDay.Some? && today == s.lastCompletionDay.value + 1 ==>
            r.currentStreak == s.currentStreak + 1)
      && (s.lastCompletionDay.Some? && today > s.lastCompletionDay.value + 1 ==>
            r.currentStreak == 1)
      && (s.lastCompletionDay.Some? && today <= s.lastCompletionDay.value ==>
            r.currentStreak == s.currentStreak)
      && r.longestStreak == Max(s.longestStreak, r.currentStreak)
      && r.longestStreak >= r.currentStreak
      && r.totalWins == s.totalWins + 1
      && r.lastCompletionDay == Some(today)
  {
  }

  /** `updateStreak` keeps the counters' invariant. */
  lemma StreakAfterCompletionValid(s: StreakData, today: Day)
    requires StreakValid(s)
    ensures StreakValid(StreakAfterCompletion(s, today))
  {
  }

  /** Completing on two consecutive days gives a streak of two; skipping a day restarts at one. */
  lemma ConsecutiveAndSkippedDays(d: Day)
    ensures StreakAfterCompletion(StreakAfterCompletion(NoStreak, d), d + 1).currentStreak == 2
    ensures StreakAfterCompletion(StreakAfterCompletion(NoStreak, d), d + 2).currentStreak == 1
    ensures StreakAfterCompletion(StreakAfterCompletion(NoStreak, d), d + 2).longestStreak == 1
  {
  }

  // ---------------------------------------------------------------------------
  // DailySproutStore as a value, and its four operations as transitions
  // ---------------------------------------------------------------------------

  /**
   * Everything the store holds: today's goals in display order, the streak
   * record, the completion flag, and the "LastOpenDate" slot of the
   * key-value store (as a day).
   */
  datatype StoreState = StoreState(
    goals: seq<DailyGoal>,
    streak: StreakData,
    hasCompletedToday: bool,
    lastOpenDay: Option<Day>)

  /** Some goal of the list is completed (`todaysGoals.contains { $0.isCompleted }`). */
  predicate AnyCompleted(goals: seq<DailyGoal>) {
    exists k :: 0 <= k < |goals| && goals[k].isCompleted
  }

  /**
   * `loadData`: each slot that is missing or does not decode (None) falls
   * back to its default on its own; a missing flag reads as false.
   */
  function Loaded(goals: Option<seq<DailyGoal>>, streak: Option<StreakData>,
                  flag: bool, lastOpen: Option<Day>): (st: StoreState)
    ensures goals.None? ==> st.goals == []
    ensures streak.None? ==> st.streak == NoStreak
    ensures goals.Some? ==> st.goals == goals.value
    ensures streak.Some? ==> st.streak == streak.value
    ensures st.hasCompletedToday == flag && st.lastOpenDay == lastOpen
  {
    StoreState(goals.GetOr([]), streak.GetOr(NoStreak), flag, lastOpen)
  }

  /** `addGoal`: a new, not yet completed goal at the end of the list. */
  function StoreAdd(st: StoreState, text: string, id: GoalId, createdAt: int): (r: StoreState)
    ensures |r.goals| == |st.goals| + 1 && r.goals[..|st.goals|] == st.goals
    ensures r.goals[|st.goals|].text == text && !r.goals[|st.goals|].isCompleted
    ensures r.streak == st.streak && r.hasCompletedToday == st.hasCompletedToday
    ensures r.lastOpenDay == st.lastOpenDay
  {
    st.(goals := st.goals + [DailyGoal(id, text, false, createdAt)])
  }

  /**
   * `toggleGoal(at:)`: out of range does nothing; otherwise the goal flips,
   * the first completion of the day (flag still false and the date gate
   * open) runs `updateStreak` and raises the flag, and un-completing the last
   * completed goal lowers the flag without touching the counters.
   */
  function StoreToggle(st: StoreState, index: nat, today: Day): (r: StoreState)
    ensures |r.goals| == |st.goals| && r.lastOpenDay == st.lastOpenDay
    ensures forall k :: 0 <= k < |st.goals| && k != index ==> r.goals[k] == st.goals[k]
    ensures r.streak == st.streak || r.streak == StreakAfterCompletion(st.streak, today)
    ensures st.streak.totalWins <= r.streak.totalWins <= st.streak.totalWins + 1
  {
    if index >= |st.goals| then st
    else
      var wasCompleted := st.goals[index].isCompleted;
      var goals := st.goals[index := st.goals[index].(isCompleted := !wasCompleted)];
      if !wasCompleted && !st.hasCompletedToday && CanIncrementToday(st.streak, today) then
        st.(goals := goals, streak := StreakAfterCompletion(st.streak, today), hasCompletedToday := true)
      else if wasCompleted && !AnyCompleted(goals) then
        st.(goals := goals, hasCompletedToday := false)
      else
        st.(goals := goals)
  }

  /** `removeGoal(at:)`: out of range does nothing; otherwise that goal leaves the list. */
  function StoreRemove(st: StoreState, index: nat): (r: StoreState)
    ensures |r.goals| == if index < |st.goals| then |st.goals| - 1 else |st.goals|
    ensures r.streak == st.streak && r.hasCompletedToday == st.hasCompletedToday
    ensures r.lastOpenDay == st.lastOpenDay
  {
    if index < |st.goals| then st.(goals := st.goals[..index] + st.goals[index + 1..])
    else st
  }

  /**
   * `checkNewDay`, as the app has it: a missing "LastOpenDate" reads as the
   * current instant, so it counts as today; only a stored day that differs
   * from today clears the list and the flag, and only then is today stored.
   */
  function StoreCheckNewDay(st: StoreState, today: Day): (r: StoreState)
    ensures r.streak == st.streak
    ensures st.lastOpenDay.None? ==> r == st
    ensures r == st || (r.goals == [] && !r.hasCompletedToday && r.lastOpenDay == Some(today))
  {
    var lastOpenDay := st.lastOpenDay.GetOr(today);
    if lastOpenDay != today then
      st.(goals := [], hasCompletedToday := false, lastOpenDay := Some(today))
    else
      st
  }

  /**
   * `checkNewDay` as it is evidently meant to work: the day of every opening
   * is stored, so that the next opening on another day rolls over.
   */
  function StoreCheckNewDayRecorded(st: StoreState, today: Day): (r: StoreState)
    ensures r.lastOpenDay == Some(today)
    ensures r.streak == st.streak
  {
    if st.lastOpenDay.Some? && st.lastOpenDay.value != today then
      st.(goals := [], hasCompletedToday := false, lastOpenDay := Some(today))
    else
      st.(lastOpenDay := Some(today))
  }

  // ---------------------------------------------------------------------------
  // Facts about one operation
  // ---------------------------------------------------------------------------

  /**
   * The goal `addGoal` appends is exactly the new one: the caller's id and
   * creation instant, the given text, not completed; and it is the last goal.
   */
  lemma AddAppends(st: StoreState, text: string, id: GoalId, createdAt: int)
    ensures var r := StoreAdd(st, text, id, createdAt);
      && r.goals[|r.goals| - 1] == DailyGoal(id, text, false, createdAt)
      && r.goals == st.goals + [DailyGoal(id, text, false, createdAt)]
  {
  }

  /** A toggle at an index at or beyond the end of the list changes nothing. */
  lemma ToggleOutOfRangeIsNoOp(st: StoreState, index: nat, today: Day)
    requires index >= |st.goals|
    ensures StoreToggle(st, index, today) == st
  {
  }

  /** A toggle flips the one goal at `index`, keeps its other fields, and leaves every other goal alone. */
  lemma ToggleFlipsOnlyThatGoal(st: StoreState, index: nat, today: Day)
    requires index < |st.goals|
    ensures var r := StoreToggle(st, index, today);
      && |r.goals| == |st.goals|
      && r.goals[index] == st.goals[index].(isCompleted := !st.goals[index].isCompleted)
      && (forall k :: 0 <= k < |st.goals| && k != index ==> r.goals[k] == st.goals[k])
      && r.lastOpenDay == st.lastOpenDay
  {
  }

  /**
   * The streak moves only on a false-to-true flip while the flag is down and
   * the date gate is open, and then it is exactly `updateStreak` and the flag
   * goes up; on every other toggle the record is untouched.
   */
  lemma ToggleUpdatesStreakOnlyOnFirstCompletion(st: StoreState, index: nat, today: Day)
    ensures var r := StoreToggle(st, index, today);
      var first := index < |st.goals| && !st.goals[index].isCompleted
                   && !st.hasCompletedToday && CanIncrementToday(st.streak, today);
      && (first ==> r.streak == StreakAfterCompletion(st.streak, today) && r.hasCompletedToday)
      && (!first ==> r.streak == st.streak)
      && (!first ==> (r.hasCompletedToday ==> st.hasCompletedToday))
      && (r.streak.totalWins == st.streak.totalWins + 1 <==> first)
  {
  }

  /**
   * Un-completing a goal never touches the streak record; it lowers the flag
   * exactly when no completed goal remains, and otherwise keeps it.
   */
  lemma UncompleteKeepsStreak(st: StoreState, index: nat, today: Day)
    requires index < |st.goals| && st.goals[index].isCompleted
    ensures var r := StoreToggle(st, index, today);
      && r.streak == st.streak
      && (!AnyCompleted(r.goals) ==> !r.hasCompletedToday)
      && (AnyCompleted(r.goals) ==> r.hasCompletedToday == st.hasCompletedToday)
  {
  }

  /**
   * Once a completion has counted today, no toggle can change the streak
   * record again today, whatever the flag says: the date gate governs.
   */
  lemma SameDayToggleKeepsStreak(st: StoreState, index: nat, today: Day)
    requires st.streak.lastCompletionDay == Some(today)
    ensures StoreToggle(st, index, today).streak == st.streak
  {
  }

  /**
   * `removeGoal` with an index in range drops exactly that goal and keeps
   * the order of the rest; out of range it does nothing. The streak record,
   * the flag and the last-open day never change.
   */
  lemma RemoveDropsOnlyThatGoal(st: StoreState, index: nat)
    ensures var r := StoreRemove(st, index);
      && (index < |st.goals| ==>
            |r.goals| == |st.goals| - 1
            && (forall k :: 0 <= k < index ==> r.goals[k] == st.goals[k])
            && (forall k :: index <= k < |r.goals| ==> r.goals[k] == st.goals[k + 1]))
      && (index >= |st.goals| ==> r == st)
      && r.streak == st.streak
      && r.hasCompletedToday == st.hasCompletedToday
      && r.lastOpenDay == st.lastOpenDay
  {
  }

  /**
   * `checkNewDay` as written: on a stored day other than today it clears
   * the list and the flag and stores today; with no stored day, or with
   * today stored, it changes nothing. The streak record never changes.
   */
  lemma CheckNewDayRollsOverOnlyOnStoredOtherDay(st: StoreState, today: Day)
    ensures var r := StoreCheckNewDay(st, today);
      && r.streak == st.streak
      && (st.lastOpenDay.None? ==> r == st)
      && (st.lastOpenDay == Some(today) ==> r == st)
      && (st.lastOpenDay.Some? && st.lastOpenDay.value != today ==>
            r.goals == [] && !r.hasCompletedToday && r.lastOpenDay == Some(today))
  {
  }

  /** The corrected `checkNewDay` clears exactly when a different day is stored. */
  lemma CheckNewDayRecordedRollsOver(st: StoreState, today: Day)
    ensures var r := StoreCheckNewDayRecorded(st, today);
      && (st.lastOpenDay.Some? && st.lastOpenDay.value != today ==>
            r.goals == [] && !r.hasCompletedToday)
      && (!(st.lastOpenDay.Some? && st.lastOpenDay.value != today) ==>
            r.goals == st.goals && r.hasCompletedToday == st.hasCompletedToday)
  {
  }

  // ---------------------------------------------------------------------------
  // DailySproutStore, updated in place
  // ---------------------------------------------------------------------------

  class DailySproutStore {
    var todaysGoals: seq<DailyGoal>
    var streakData: StreakData
    var hasCompletedToday: bool
    /** The "LastOpenDate" slot of the key-value store, as a day. */
    var lastOpenDay: Option<Day>

    /** The store's whole state as a value. */
    function State(): StoreState
      reads this
    {
      StoreState(todaysGoals, streakData, hasCompletedToday, lastOpenDay)
    }

    /** `init()`: `loadData()` from the saved slots, then `checkNewDay()`. */
    constructor (savedGoals: Option<seq<DailyGoal>>, savedStreak: Option<StreakData>,
                 savedFlag: bool, savedLastOpen: Option<Day>, today: Day)
      ensures State() == StoreCheckNewDay(Loaded(savedGoals, savedStreak, savedFlag, savedLastOpen), today)
    {
      todaysGoals := savedGoals.GetOr([]);
      streakData := savedStreak.GetOr(NoStreak);
      hasCompletedToday := savedFlag;
      lastOpenDay := savedLastOpen;
      new;
      CheckNewDay(today);
    }

    /** `checkNewDay()`. */
    method CheckNewDay(today: Day)
      modifies this
      ensures State() == StoreCheckNewDay(old(State()), today)
      ensures streakData == old(streakData)
    {
      var lastOpen := if lastOpenDay.Some? then lastOpenDay.value else today;
      if lastOpen != today {
        todaysGoals := [];
        hasCompletedToday := false;
        lastOpenDay := Some(today);
      }
    }

    /** `addGoal(_:)`. */
    method AddGoal(text: string, id: GoalId, createdAt: int)
      modifies this
      ensures State() == StoreAdd(old(State()), text, id, createdAt)
      ensures todaysGoals == old(todaysGoals) + [DailyGoal(id, text, false, createdAt)]
    {
      var newGoal := DailyGoal(id, text, false, createdAt);
      todaysGoals := todaysGoals + [newGoal];
    }

    /** `toggleGoal(at:)`. */
    method ToggleGoal(index: nat, today: Day)
      modifies this
      ensures State() == StoreToggle(old(State()), index, today)
      ensures streakData.totalWins >= old(streakData.totalWins)
    {
      if index >= |todaysGoals| {
        return;
      }
      var wasCompleted := todaysGoals[index].isCompleted;
      todaysGoals := todaysGoals[index := todaysGoals[index].(isCompleted := !wasCompleted)];
      var isCompleted := todaysGoals[index].isCompleted;
      var hasAnyCompleted := AnyCompleted(todaysGoals);
      if !wasCompleted && isCompleted && !hasCompletedToday && CanIncrementToday(streakData, today) {
        streakData := UpdateStreak(streakData, today);
        hasCompletedToday := true;
      } else if wasCompleted && !isCompleted && !hasAnyCompleted {
        hasCompletedToday := false;
      }
    }

    /** `removeGoal(at:)`. */
    method RemoveGoal(index: nat)
      modifies this
      ensures State() == StoreRemove(old(State()), index)
      ensures streakData == old(streakData) && hasCompletedToday == old(hasCompletedToday)
    {
      if index >= |todaysGoals| {
        return;
      }
      todaysGoals := todaysGoals[..index] + todaysGoals[index + 1..];
    }
  }

  // ---------------------------------------------------------------------------
  // Sessions: sequences of operations
  // ---------------------------------------------------------------------------

  /** Which `checkNewDay` an opening of the app runs: the app's, or the corrected one. */
  datatype RolloverRule = AsWritten | RecordEveryOpen

  /**
   * One thing the app does to the store; toggles and openings carry the day
   * they happen on. `Open(day)` is a cold launch: a fresh `DailySproutStore`
   * built by `init()`, which is the only caller of `checkNewDay`. Returning
   * from the background keeps the same store and runs no `checkNewDay`.
   */
  datatype Action =
    | Add(text: string, id: GoalId, createdAt: int)
    | Toggle(index: nat, day: Day)
    | Remove(index: nat)
    | Open(day: Day)

  function Opened(st: StoreState, today: Day, rule: RolloverRule): StoreState {
    match rule
    case AsWritten => StoreCheckNewDay(st, today)
    case RecordEveryOpen => StoreCheckNewDayRecorded(st, today)
  }

  function Step(st: StoreState, a: Action, rule: RolloverRule): StoreState {
    match a
    case Add(text, id, createdAt) => StoreAdd(st, text, id, createdAt)
    case Toggle(index, day) => StoreToggle(st, index, day)
    case Remove(index) => StoreRemove(st, index)
    case Open(day) => Opened(st, day, rule)
  }

  /** The state after performing `acts` in order. */
  function Run(st: StoreState, acts: seq<Action>, rule: RolloverRule): StoreState
    decreases |acts|
  {
    if acts == [] then st else Run(Step(st, acts[0], rule), acts[1..], rule)
  }

  /** The action happens on `today` (adds and removes carry no day). */
  predicate HappensOn(a: Action, today: Day) {
    match a
    case Toggle(_, day) => day == today
    case Open(day) => day == today
    case _ => true
  }

  predicate AllOn(acts: seq<Action>, today: Day) {
    forall k :: 0 <= k < |acts| ==> HappensOn(acts[k], today)
  }

  predicate NoOpens(acts: seq<Action>) {
    forall k :: 0 <= k < |acts| ==> !acts[k].Open?
  }

  predicate NoRemoves(acts: seq<Action>) {
    forall k :: 0 <= k < |acts| ==> !acts[k].Remove?
  }

  /** A single step leaves the streak record alone or is a completion counted on the toggle's day. */
  lemma StepStreak(st: StoreState, a: Action, rule: RolloverRule)
    ensures var r := Step(st, a, rule);
      r.streak == st.streak
      || (a.Toggle? && r.streak == StreakAfterCompletion(st.streak, a.day))
  {
  }

  /** After a completion counted today, nothing done today changes the streak record. */
  lemma {:induction false} SameDayStreakFrozen(st: StoreState, acts: seq<Action>, today: Day, rule: RolloverRule)
    requires st.streak.lastCompletionDay == Some(today)
    requires AllOn(acts, today)
    ensures Run(st, acts, rule).streak == st.streak
    decreases |acts|
  {
    if acts != [] {
      var next := Step(st, acts[0], rule);
      assert HappensOn(acts[0], today);
      if acts[0].Toggle? {
        SameDayToggleKeepsStreak(st, acts[0].index, today);
      }
      assert next.streak == st.streak;
      assert AllOn(acts[1..], today) by {
        forall k | 0 <= k < |acts| - 1 ensures HappensOn(acts[1..][k], today) {
          assert acts[1..][k] == acts[k + 1];
        }
      }
      SameDayStreakFrozen(next, acts[1..], today, rule);
    }
  }

  /**
   * The once-per-day ratchet: however goals are added, toggled on and off,
   * removed, and however often the app is opened, within one day the number
   * of wins rises by at most one.
   */
  lemma {:induction false} AtMostOneWinPerDay(st: StoreState, acts: seq<Action>, today: Day, rule: RolloverRule)
    requires AllOn(acts, today)
    ensures st.streak.totalWins <= Run(st, acts, rule).streak.totalWins <= st.streak.totalWins + 1
    decreases |acts|
  {
    if acts != [] {
      var next := Step(st, acts[0], rule);
      assert HappensOn(acts[0], today);
      assert AllOn(acts[1..], today) by {
        forall k | 0 <= k < |acts| - 1 ensures HappensOn(acts[1..][k], today) {
          assert acts[1..][k] == acts[k + 1];
        }
      }
      StepStreak(st, acts[0], rule);
      if next.streak == st.streak {
        AtMostOneWinPerDay(next, acts[1..], today, rule);
      } else {
        assert next.streak == StreakAfterCompletion(st.streak, today);
        SameDayStreakFrozen(next, acts[1..], today, rule);
      }
    }
  }

  /**
   * Along any session over any days, the counters' invariant is kept and
   * neither the number of wins nor the longest streak ever goes down.
   */
  lemma {:induction false} RunKeepsStreakValid(st: StoreState, acts: seq<Action>, rule: RolloverRule)
    requires StreakValid(st.streak)
    ensures var r := Run(st, acts, rule);
      && StreakValid(r.streak)
      && r.streak.totalWins >= st.streak.totalWins
      && r.streak.longestStreak >= st.streak.longestStreak
    decreases |acts|
  {
    if acts != [] {
      var next := Step(st, acts[0], rule);
      StepStreak(st, acts[0], rule);
      if acts[0].Toggle? {
        StreakAfterCompletionValid(st.streak, acts[0].day);
      }
      RunKeepsStreakValid(next, acts[1..], rule);
    }
  }

  /**
   * With the app's own `checkNewDay`, a store that has no "LastOpenDate"
   * never gets one, and as long as no goal is removed its list never
   * shrinks: the daily rollover never happens.
   */
  lemma {:induction false} AsWrittenNeverRollsOver(st: StoreState, acts: seq<Action>)
    requires st.lastOpenDay.None?
    ensures Run(st, acts, AsWritten).lastOpenDay.None?
    ensures NoRemoves(acts) ==> |Run(st, acts, AsWritten).goals| >= |st.goals|
    decreases |acts|
  {
    if acts != [] {
      var next := Step(st, acts[0], AsWritten);
      assert next.lastOpenDay.None?;
      assert !acts[0].Remove? ==> |next.goals| >= |st.goals|;
      assert NoRemoves(acts) ==> NoRemoves(acts[1..]) by {
        if NoRemoves(acts) {
          forall k | 0 <= k < |acts| - 1 ensures !acts[1..][k].Remove? {
            assert acts[1..][k] == acts[k + 1];
          }
        }
      }
      AsWrittenNeverRollsOver(next, acts[1..]);
    }
  }

  /** Without an opening in between, the stored last-open day stays as it was. */
  lemma {:induction false} RunWithoutOpensKeepsLastOpen(st: StoreState, acts: seq<Action>, rule: RolloverRule)
    requires NoOpens(acts)
    ensures Run(st, acts, rule).lastOpenDay == st.lastOpenDay
    decreases |acts|
  {
    if acts != [] {
      assert !acts[0].Open?;
      assert NoOpens(acts[1..]) by {
        forall k | 0 <= k < |acts| - 1 ensures !acts[1..][k].Open? {
          assert acts[1..][k] == acts[k + 1];
        }
      }
      RunWithoutOpensKeepsLastOpen(Step(st, acts[0], rule), acts[1..], rule);
    }
  }

  /**
   * With the corrected `checkNewDay`, opening the app on day `d`, using it,
   * and opening it again on any other day clears the list and the flag.
   */
  lemma RecordedRolloverClears(st: StoreState, d: Day, acts: seq<Action>, d2: Day)
    requires NoOpens(acts)
    requires d2 != d
    ensures var r := StoreCheckNewDayRecorded(Run(StoreCheckNewDayRecorded(st, d), acts, RecordEveryOpen), d2);
      r.goals == [] && !r.hasCompletedToday && r.lastOpenDay == Some(d2)
  {
    RunWithoutOpensKeepsLastOpen(StoreCheckNewDayRecorded(st, d), acts, RecordEveryOpen);
  }

  /** The empty store a fresh install starts with. */
  const FreshStore := Loaded(None, None, false, None)

  /**
   * A fresh install, used on day 0 (one goal completed) and again on day 1
   * (another goal completed). As written, yesterday's goal and raised flag
   * survive into day 1 and the second completion does not extend the streak;
   * with the corrected rollover day 1 starts empty and the streak becomes 2.
   */
  lemma StaleDayBlocksStreak()
    ensures var acts := [Open(0), Add("Drink water", 0, 0), Toggle(0, 0),
                         Open(1), Add("Walk", 1, 1), Toggle(1, 1)];
      var asWritten := Run(FreshStore, acts, AsWritten);
      && |asWritten.goals| == 2
      && asWritten.hasCompletedToday
      && asWritten.streak.currentStreak == 1
      && asWritten.streak.totalWins == 1
  {
    var acts := [Open(0), Add("Drink water", 0, 0), Toggle(0, 0),
                 Open(1), Add("Walk", 1, 1), Toggle(1, 1)];
    RunSteps6(FreshStore, acts, AsWritten);
    var s3 := Step(Step(Step(FreshStore, acts[0], AsWritten), acts[1], AsWritten), acts[2], AsWritten);
    assert s3.streak == StreakData(1, 1, 1, Some(0)) && s3.hasCompletedToday;
  }

  /** The same two days with the corrected rollover: the streak is extended to 2. */
  lemma RecordedDayExtendsStreak()
    ensures var acts := [Open(0), Add("Drink water", 0, 0), Toggle(0, 0),
                         Open(1), Add("Walk", 1, 1), Toggle(0, 1)];
      var recorded := Run(FreshStore, acts, RecordEveryOpen);
      && |recorded.goals| == 1
      && recorded.hasCompletedToday
      && recorded.streak.currentStreak == 2
      && recorded.streak.totalWins == 2
  {
    var acts := [Open(0), Add("Drink water", 0, 0), Toggle(0, 0),
                 Open(1), Add("Walk", 1, 1), Toggle(0, 1)];
    RunSteps6(FreshStore, acts, RecordEveryOpen);
    var s3 := Step(Step(Step(FreshStore, acts[0], RecordEveryOpen), acts[1], RecordEveryOpen),
                   acts[2], RecordEveryOpen);
    assert s3.streak == StreakData(1, 1, 1, Some(0));
    var s4 := Step(s3, acts[3], RecordEveryOpen);
    assert s4.goals == [] && !s4.hasCompletedToday;
  }

  /** Unfolds `Run` over a session of six actions. */
  lemma RunSteps6(st: StoreState, acts: seq<Action>, rule: RolloverRule)
    requires |acts| == 6
    ensures Run(st, acts, rule) ==
      Step(Step(Step(Step(Step(Step(st, acts[0], rule), acts[1], rule), acts[2], rule),
        acts[3], rule), acts[4], rule), acts[5], rule)
  {
    var t1 := acts[1..];
    var t2 := t1[1..];
    var t3 := t2[1..];
    var t4 := t3[1..];
    var t5 := t4[1..];
    assert t1[0] == acts[1] && t2[0] == acts[2] && t3[0] == acts[3];
    assert t4[0] == acts[4] && t5[0] == acts[5] && t5[1..] == [];
    var s1 := Step(st, acts[0], rule);
    var s2 := Step(s1, acts[1], rule);
    var s3 := Step(s2, acts[2], rule);
    var s4 := Step(s3, acts[3], rule);
    var s5 := Step(s4, acts[4], rule);
    assert Run(s5, t5, rule) == Step(s5, acts[5], rule);
    assert Run(s4, t4, rule) == Run(s5, t5, rule);
    assert Run(s3, t3, rule) == Run(s4, t4, rule);
    assert Run(s2, t2, rule) == Run(s3, t3, rule);
    assert Run(s1, t1, rule) == Run(s2, t2, rule);
  }

  /**
   * The session of a single day: add a goal, complete it, un-complete it,
   * add a second goal and complete that one. The un-completion lowers the
   * flag, but the second completion is still refused by the date gate, so
   * there is one win.
   */
  lemma OneDaySession(today: Day)
    ensures var s2 := StoreToggle(StoreAdd(FreshStore, "Drink water", 0, 0), 0, today);
      var s3 := StoreToggle(s2, 0, today);
      var s5 := StoreToggle(StoreAdd(s3, "Walk", 1, 0), 1, today);
      && s2.streak.currentStreak == 1 && s2.streak.totalWins == 1 && s2.hasCompletedToday
      && !s3.goals[0].isCompleted && !s3.hasCompletedToday && s3.streak.totalWins == 1
      && s5.goals[1].isCompleted && !s5.hasCompletedToday && s5.streak.totalWins == 1
  {
  }
}
