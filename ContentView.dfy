/**
 * The selection rules of DailySprout's screens: which celebration message a
 * streak earns, which motivational line the share card shows, when the
 * add-goal sheet accepts its text, and when a toggle is celebrated.
 */
module ContentView {
  import opened Wrappers
  import opened Models

  // ---------------------------------------------------------------------------
  // Decimal rendering of integers (Swift string interpolation of an `Int`)
  // ---------------------------------------------------------------------------

  predicate IsDigit(c: char) {
    '0' <= c <= '9'
  }

  function DigitChar(d: nat): (c: char)
    requires d < 10
    ensures IsDigit(c) && c as int - '0' as int == d
  {
    (d + '0' as int) as char
  }

  /** The decimal digits of `n`, most significant first, without leading zeros. */
  function NatToString(n: nat): (s: string)
    ensures |s| >= 1
    ensures forall k :: 0 <= k < |s| ==> IsDigit(s[k])
    ensures s[0] == '0' <==> n == 0
    decreases n
  {
    if n < 10 then [DigitChar(n)] else NatToString(n / 10) + [DigitChar(n % 10)]
  }

  /** `"\(n)"`: a minus sign before the digits of a negative number. */
  function IntToString(i: int): (s: string)
    ensures |s| >= 1
    ensures s[0] == '-' <==> i < 0
    ensures forall k :: 0 < k < |s| ==> IsDigit(s[k])
  {
    if i < 0 then "-" + NatToString(-i) else NatToString(i)
  }

  /** Reads a string of decimal digits back as a number. */
  function ParseNat(s: string): nat
    requires forall k :: 0 <= k < |s| ==> IsDigit(s[k])
    decreases |s|
  {
    if s == [] then 0
    else
      assert IsDigit(s[|s| - 1]);
      ParseNat(s[..|s| - 1]) * 10 + (s[|s| - 1] as int - '0' as int)
  }

  /** Reading the digits back gives the number: the rendering loses nothing. */
  lemma {:induction false} ParseNatToString(n: nat)
    ensures ParseNat(NatToString(n)) == n
    decreases n
  {
    var s := NatToString(n);
    if n >= 10 {
      ParseNatToString(n / 10);
      assert s[..|s| - 1] == NatToString(n / 10);
    }
  }

  /** Different numbers are rendered differently. */
  lemma IntToStringInjective(i: int, j: int)
    requires IntToString(i) == IntToString(j)
    ensures i == j
  {
    if i < 0 && j < 0 {
      assert NatToString(-i) == IntToString(i)[1..];
      ParseNatToString(-i);
      ParseNatToString(-j);
    } else if i >= 0 && j >= 0 {
      ParseNatToString(i);
      ParseNatToString(j);
    }
  }

  // ---------------------------------------------------------------------------
  // ContentView.showStreakCelebration(for:)
  // ---------------------------------------------------------------------------

  const SproutedMessage := "You sprouted today! Your journey begins! \U{1F331}"
  const ThreeDaysMessage := "3 days strong! You're building momentum! \U{1F4AA}"
  const OneWeekMessage := "One week streak! You're forming a habit! \U{1F525}"
  const TwoWeeksMessage := "Two weeks! Your consistency is impressive! \U{2B50}"
  const HabitMasterMessage := "30 days! You're a habit master! \U{1F451}"

  function DedicationMessage(streak: int): string {
    IntToString(streak) + " days! Your dedication is inspiring! \U{1F680}"
  }

  function DayMessage(streak: int): string {
    "Day " + IntToString(streak) + "! Keep up the amazing work! \U{1F31F}"
  }

  /** The `switch` of `showStreakCelebration`, cases tried in order. */
  function CelebrationMessage(streak: int): (m: string)
    ensures streak in {1, 3, 7, 14, 30} ==>
      m in {SproutedMessage, ThreeDaysMessage, OneWeekMessage, TwoWeeksMessage, HabitMasterMessage}
    ensures streak !in {1, 3, 7, 14, 30} ==> m == DedicationMessage(streak) || m == DayMessage(streak)
  {
    if streak == 1 then SproutedMessage
    else if streak == 3 then ThreeDaysMessage
    else if streak == 7 then OneWeekMessage
    else if streak == 14 then TwoWeeksMessage
    else if streak == 30 then HabitMasterMessage
    // Swift's `%` truncates, Dafny's is Euclidean; they agree on a zero remainder.
    else if streak % 10 == 0 then DedicationMessage(streak)
    else DayMessage(streak)
  }

  /**
   * The five milestones have their own messages; any other multiple of ten
   * (30 excluded, by order) gets the dedication message; everything else,
   * the "Day N" message.
   */
  lemma CelebrationMessageCases(streak: int)
    ensures streak == 1 ==> CelebrationMessage(streak) == SproutedMessage
    ensures streak == 3 ==> CelebrationMessage(streak) == ThreeDaysMessage
    ensures streak == 7 ==> CelebrationMessage(streak) == OneWeekMessage
    ensures streak == 14 ==> CelebrationMessage(streak) == TwoWeeksMessage
    ensures streak == 30 ==> CelebrationMessage(streak) == HabitMasterMessage
    ensures streak !in {1, 3, 7, 14, 30} && streak % 10 == 0 ==>
      CelebrationMessage(streak) == DedicationMessage(streak)
    ensures streak !in {1, 3, 7, 14, 30} && streak % 10 != 0 ==>
      CelebrationMessage(streak) == DayMessage(streak)
  {
  }

  /** Thirty has its own message and does not fall through to the multiple-of-ten one. */
  lemma ThirtyIsNotTemplated()
    ensures CelebrationMessage(30) != DedicationMessage(30)
  {
  }

  /** The dedication message tells the streak: two different streaks never share one. */
  lemma DedicationMessagesDistinct(i: int, j: int)
    requires DedicationMessage(i) == DedicationMessage(j)
    ensures i == j
  {
    var a, b := IntToString(i), IntToString(j);
    assert |a| == |b|;
    assert a == DedicationMessage(i)[..|a|];
    assert b == DedicationMessage(j)[..|b|];
    IntToStringInjective(i, j);
  }

  /** The "Day N" message tells the streak: two different streaks never share one. */
  lemma DayMessagesDistinct(i: int, j: int)
    requires DayMessage(i) == DayMessage(j)
    ensures i == j
  {
    var a, b := IntToString(i), IntToString(j);
    assert |a| == |b|;
    assert a == DayMessage(i)[4..4 + |a|];
    assert b == DayMessage(j)[4..4 + |b|];
    IntToStringInjective(i, j);
  }

  // ---------------------------------------------------------------------------
  // ShareableProgressCard.motivationalMessage
  // ---------------------------------------------------------------------------

  const HabitMasterLine := "Habit Master! \U{1F3C6}"
  const ChampionLine := "Consistency Champion! \U{2B50}"
  const WeekStrongLine := "Week Strong! \U{1F4AA}"
  const MakingProgressLine := "Making Progress! \U{1F680}"
  const GrowingLine := "Growing Every Day! \U{1F331}"

  /** The share card's line: the first threshold the record reaches, in order. */
  function MotivationalMessage(s: StreakData): (m: string)
    ensures m in {HabitMasterLine, ChampionLine, WeekStrongLine, MakingProgressLine, GrowingLine}
    ensures s.currentStreak >= 7 ==> m in {HabitMasterLine, ChampionLine, WeekStrongLine}
    ensures s.currentStreak < 7 ==> m in {MakingProgressLine, GrowingLine}
  {
    if s.currentStreak >= 30 then HabitMasterLine
    else if s.currentStreak >= 14 then ChampionLine
    else if s.currentStreak >= 7 then WeekStrongLine
    else if s.totalWins >= 10 then MakingProgressLine
    else GrowingLine
  }

  /**
   * From a week's streak on, the line depends on the streak alone; below a
   * week, on the number of wins alone.
   */
  lemma MotivationalMessageThresholds(s: StreakData)
    ensures s.currentStreak >= 30 ==> MotivationalMessage(s) == HabitMasterLine
    ensures 14 <= s.currentStreak < 30 ==> MotivationalMessage(s) == ChampionLine
    ensures 7 <= s.currentStreak < 14 ==> MotivationalMessage(s) == WeekStrongLine
    ensures s.currentStreak < 7 ==>
      MotivationalMessage(s) == if s.totalWins >= 10 then MakingProgressLine else GrowingLine
    ensures forall w :: s.currentStreak >= 7 ==>
      MotivationalMessage(s.(totalWins := w)) == MotivationalMessage(s)
  {
  }

  // ---------------------------------------------------------------------------
  // AddGoalView: trimming and the "Add Goal" button
  // ---------------------------------------------------------------------------

  /** `CharacterSet.whitespaces`: CHARACTER TABULATION and the space separators (category Zs). */
  predicate IsWhitespace(c: char) {
    || c == '\t' || c == ' ' || c == '\U{00A0}' || c == '\U{1680}'
    || ('\U{2000}' <= c <= '\U{200A}')
    || c == '\U{202F}' || c == '\U{205F}' || c == '\U{3000}'
  }

  /** The number of whitespace characters `s` starts with. */
  function LeadingWhitespace(s: string): (n: nat)
    ensures n <= |s|
    ensures forall k :: 0 <= k < n ==> IsWhitespace(s[k])
    ensures n < |s| ==> !IsWhitespace(s[n])
    decreases |s|
  {
    if s != [] && IsWhitespace(s[0]) then 1 + LeadingWhitespace(s[1..]) else 0
  }

  /** The length of `s` without the whitespace it ends with. */
  function TrailingWhitespaceStart(s: string): (n: nat)
    ensures n <= |s|
    ensures forall k :: n <= k < |s| ==> IsWhitespace(s[k])
    ensures n > 0 ==> !IsWhitespace(s[n - 1])
    decreases |s|
  {
    if s != [] && IsWhitespace(s[|s| - 1]) then TrailingWhitespaceStart(s[..|s| - 1]) else |s|
  }

  /** `trimmingCharacters(in: .whitespaces)`. */
  function Trim(s: string): (r: string)
    ensures |r| <= |s|
    ensures r != [] ==> !IsWhitespace(r[0]) && !IsWhitespace(r[|r| - 1])
  {
    var i := LeadingWhitespace(s);
    var rest := s[i..];
    rest[..TrailingWhitespaceStart(rest)]
  }

  /**
   * Trimming removes whitespace from both ends and nothing else: the result
   * is a contiguous slice of the text, everything cut off is whitespace, and
   * a non-empty result neither starts nor ends with whitespace.
   */
  lemma TrimIsInnerSlice(s: string)
    ensures var r := Trim(s);
      exists i, j :: (0 <= i <= j <= |s| && r == s[i..j]
        && (forall k :: 0 <= k < i ==> IsWhitespace(s[k]))
        && (forall k :: j <= k < |s| ==> IsWhitespace(s[k])))
    ensures var r := Trim(s); r != [] ==> !IsWhitespace(r[0]) && !IsWhitespace(r[|r| - 1])
  {
    var i := LeadingWhitespace(s);
    var rest := s[i..];
    var j := i + TrailingWhitespaceStart(rest);
    assert Trim(s) == s[i..j];
    assert forall k :: j <= k < |s| ==> s[k] == rest[k - i];
  }

  /** The trimmed text is empty exactly when the text is all whitespace. */
  lemma TrimEmptyIffAllWhitespace(s: string)
    ensures Trim(s) == [] <==> forall k :: 0 <= k < |s| ==> IsWhitespace(s[k])
  {
  }

  /** Trimming twice is trimming once. */
  lemma TrimIdempotent(s: string)
    ensures Trim(Trim(s)) == Trim(s)
  {
  }

  /** The "Add Goal" button's guard: the trimmed text is not empty. */
  function CanAddGoal(goalText: string): (ok: bool)
    ensures ok <==> exists k :: 0 <= k < |goalText| && !IsWhitespace(goalText[k])
  {
    TrimEmptyIffAllWhitespace(goalText);
    Trim(goalText) != []
  }

  /**
   * The "Add Goal" button: with some non-whitespace text it adds the
   * trimmed text and dismisses the sheet; otherwise nothing happens.
   */
  method SubmitGoal(store: DailySproutStore, goalText: string, id: GoalId, createdAt: int)
    returns (dismissed: bool)
    modifies store
    ensures dismissed == CanAddGoal(goalText)
    ensures store.State() ==
      if dismissed then StoreAdd(old(store.State()), Trim(goalText), id, createdAt)
      else old(store.State())
  {
    dismissed := false;
    if CanAddGoal(goalText) {
      store.AddGoal(Trim(goalText), id, createdAt);
      dismissed := true;
    }
  }

  // ---------------------------------------------------------------------------
  // The goal row's toggle handler: celebrate only a rise of the streak
  // ---------------------------------------------------------------------------

  predicate StreakRose(oldStreak: int, newStreak: int) {
    newStreak > oldStreak
  }

  /**
   * Toggles the goal at `index` and returns the celebration message to show,
   * if the current streak rose.
   */
  method ToggleAndCelebrate(store: DailySproutStore, index: nat, today: Day)
    returns (celebration: Option<string>)
    modifies store
    ensures store.State() == StoreToggle(old(store.State()), index, today)
    ensures celebration ==
      if StreakRose(old(store.streakData.currentStreak), store.streakData.currentStreak)
      then Some(CelebrationMessage(store.streakData.currentStreak))
      else None
  {
    var oldStreak := store.streakData.currentStreak;
    store.ToggleGoal(index, today);
    if StreakRose(oldStreak, store.streakData.currentStreak) {
      celebration := Some(CelebrationMessage(store.streakData.currentStreak));
    } else {
      celebration := None;
    }
  }

  /**
   * For a record that keeps its invariant, a toggle is celebrated exactly
   * when it is the day's first counted completion and it starts the very
   * first streak or extends yesterday's; a streak restarted after a gap is
   * not celebrated.
   */
  lemma CelebratedIffStartedOrExtended(st: StoreState, index: nat, today: Day)
    requires StreakValid(st.streak)
    ensures var r := StoreToggle(st, index, today);
      StreakRose(st.streak.currentStreak, r.streak.currentStreak) <==>
        && index < |st.goals| && !st.goals[index].isCompleted
        && !st.hasCompletedToday && CanIncrementToday(st.streak, today)
        && (st.streak.lastCompletionDay.None? || today == st.streak.lastCompletionDay.value + 1)
  {
  }
}
