// Game time: a clock of game hours that rolls over into days, days that roll over into
// seasons every `daysPerSeason` days, and four seasons to a year; plus pausing and the game
// speed. The calendar steps are pure functions on a `Calendar` value; the manager's methods
// change its fields by exactly those steps.
module GameTime {
  import opened Stats

  // ---------------------------------------------------------------- arithmetic of the source

  function Abs(n: int): nat { if n < 0 then -n else n }

  /** The source's integer remainder, which truncates toward zero: its sign is the
      dividend's and its size is below the divisor's. */
  function CsRem(a: int, b: int): (r: int)
    requires b != 0
    ensures Abs(r) < Abs(b)
    ensures a >= 0 ==> r >= 0
    ensures a <= 0 ==> r <= 0
    ensures a >= 0 && b > 0 ==> r == a % b
  {
    if a >= 0 then a % Abs(b) else -((-a) % Abs(b))
  }

  /** `Mathf.Clamp` on integers. */
  function ClampInt(v: int, lo: int, hi: int): (r: int)
    ensures lo <= hi ==> lo <= r <= hi
    ensures lo <= v <= hi ==> r == v
  {
    if v < lo then lo else if v > hi then hi else v
  }

  /** `Mathf.Max` on integers. */
  function MaxInt(a: int, b: int): (r: int)
    ensures r >= a && r >= b && (r == a || r == b)
  {
    if a >= b then a else b
  }

  // ---------------------------------------------------------------- seasons

  const Spring := 0
  const Summer := 1
  const Autumn := 2
  const Winter := 3

  /** `GetSeasonName`. */
  function SeasonName(season: int): string {
    if season == Spring then "Spring"
    else if season == Summer then "Summer"
    else if season == Autumn then "Autumn"
    else if season == Winter then "Winter"
    else "Unknown"
  }

  /** Every season has its own name and anything else is "Unknown". */
  lemma SeasonNames(s: int, t: int)
    ensures SeasonName(s) == "Unknown" <==> !(0 <= s <= 3)
    ensures 0 <= s <= 3 && 0 <= t <= 3 && s != t ==> SeasonName(s) != SeasonName(t)
  {
  }

  /** `GetSeasonalGrowthModifier`. */
  function SeasonalGrowthModifier(season: int): (m: real)
    ensures 0.3 <= m <= 1.2
    ensures !(0 <= season <= 3) ==> m == 1.0
  {
    if season == Spring then 1.2
    else if season == Summer then 1.0
    else if season == Autumn then 0.8
    else if season == Winter then 0.3
    else 1.0
  }

  // ---------------------------------------------------------------- the calendar

  datatype Calendar = Calendar(day: int, season: int, year: int) {
    /** What `SetDate` establishes and every step keeps. */
    predicate Valid() { day >= 1 && 0 <= season <= 3 && year >= 1 }
  }

  /** `AdvanceSeason`: the next season, wrapping after winter, and a new year exactly when
      the wrap lands on spring. */
  function SeasonAdvanced(c: Calendar): (r: Calendar)
    ensures r.day == c.day
    ensures 0 <= c.season <= 3 ==> 0 <= r.season <= 3 && r.season == (c.season + 1) % 4
    ensures r.year == c.year + (if r.season == Spring then 1 else 0)
  {
    var s := CsRem(c.season + 1, 4);
    Calendar(c.day, s, if s == Spring then c.year + 1 else c.year)
  }

  /** Four seasons bring the calendar back to the same season one year on. */
  lemma FourSeasonsMakeAYear(c: Calendar)
    requires 0 <= c.season <= 3
    ensures SeasonAdvanced(SeasonAdvanced(SeasonAdvanced(SeasonAdvanced(c)))) == c.(year := c.year + 1)
  {
    var c1 := SeasonAdvanced(c);
    var c2 := SeasonAdvanced(c1);
    var c3 := SeasonAdvanced(c2);
    assert c3.season == (c.season + 3) % 4;
  }

  /** Whether the day that has just begun starts a new season. */
  predicate StartsSeason(day: int, seasons: bool, daysPerSeason: int)
    requires !seasons || daysPerSeason != 0
  {
    seasons && CsRem(day - 1, daysPerSeason) == 0 && day > 1
  }

  /** `AdvanceDay`: the next day, and the next season when that day starts one. */
  function DayAdvanced(c: Calendar, seasons: bool, daysPerSeason: int): (r: Calendar)
    requires !seasons || daysPerSeason != 0
    ensures r.day == c.day + 1
    ensures StartsSeason(c.day + 1, seasons, daysPerSeason) ==> r == SeasonAdvanced(c.(day := c.day + 1))
    ensures !StartsSeason(c.day + 1, seasons, daysPerSeason) ==> r.season == c.season && r.year == c.year
  {
    var d := c.(day := c.day + 1);
    if StartsSeason(d.day, seasons, daysPerSeason) then SeasonAdvanced(d) else d
  }

  /** From a valid date and with seasons on, the season turns exactly when the day that ends
      is a multiple of the season length. */
  lemma SeasonTurnsEveryPeriod(c: Calendar, daysPerSeason: int)
    requires c.Valid() && daysPerSeason > 0
    ensures DayAdvanced(c, true, daysPerSeason).season != c.season <==> c.day % daysPerSeason == 0
  {
  }

  /** Advancing a day or a season keeps a valid date valid. */
  lemma StepsKeepValid(c: Calendar, seasons: bool, daysPerSeason: int)
    requires c.Valid() && (!seasons || daysPerSeason != 0)
    ensures SeasonAdvanced(c).Valid() && DayAdvanced(c, seasons, daysPerSeason).Valid()
  {
  }

  /** `SetDate`: year and day at least 1, the season clamped into the four. */
  function DateSet(year: int, day: int, season: int): (r: Calendar)
    ensures r.Valid()
    ensures r.Valid() && year == r.year && day == r.day && season == r.season <==>
      Calendar(day, season, year).Valid()
  {
    Calendar(MaxInt(1, day), ClampInt(season, 0, 3), MaxInt(1, year))
  }

  // ---------------------------------------------------------------- the clock

  /** `UpdateGameTime`'s clock step: the hours are added and a single 24 is taken off when
      that reaches a full day; the flag says whether it did. */
  function ClockAdvanced(time: real, hours: real): (r: (real, bool))
    ensures r.1 <==> time + hours >= 24.0
    ensures r.0 == time + hours - (if r.1 then 24.0 else 0.0)
  {
    if time + hours >= 24.0 then (time + hours - 24.0, true) else (time + hours, false)
  }

  /** A step of at most a day keeps a clock within [0, 24) there; a longer step is taken
      off only once, so the clock can be left at 24 or beyond. */
  lemma ClockBounds(time: real, hours: real)
    ensures 0.0 <= time < 24.0 && 0.0 <= hours <= 24.0 ==> 0.0 <= ClockAdvanced(time, hours).0 < 24.0
    ensures ClockAdvanced(0.0, 50.0) == (26.0, true)
  {
  }

  // ---------------------------------------------------------------- the manager

  class TimeManager {
    const realTimeToGameDayRatio: real
    const maxGameSpeed: real
    const enableSeasons: bool
    const daysPerSeason: int
    var isPaused: bool
    var gameSpeed: real
    var currentGameTime: real
    var currentDay: int
    var currentSeason: int
    var currentYear: int

    /** The date fields as one value. */
    function Date(): Calendar
      reads this
    {
      Calendar(currentDay, currentSeason, currentYear)
    }

    /** The serialized defaults: a game day a real minute, running at speed 1 of at most 4,
        seasons of 30 days on, and the clock at hour 0 of day 1, spring, year 1. */
    constructor()
      ensures realTimeToGameDayRatio == 60.0 && maxGameSpeed == 4.0 && enableSeasons && daysPerSeason == 30
      ensures !isPaused && gameSpeed == 1.0 && currentGameTime == 0.0
      ensures Date() == Calendar(1, Spring, 1) && Date().Valid()
    {
      realTimeToGameDayRatio, maxGameSpeed, enableSeasons, daysPerSeason := 60.0, 4.0, true, 30;
      isPaused, gameSpeed, currentGameTime := false, 1.0, 0.0;
      currentDay, currentSeason, currentYear := 1, Spring, 1;
    }

    /** `AdvanceSeason`. */
    method AdvanceSeason()
      modifies this`currentSeason, this`currentYear
      ensures Date() == SeasonAdvanced(old(Date()))
    {
      currentSeason := CsRem(currentSeason + 1, 4);
      if currentSeason == Spring {
        currentYear := currentYear + 1;
      }
    }

    /** `AdvanceDay`; a zero season length with seasons on would divide by zero. */
    method AdvanceDay()
      requires !enableSeasons || daysPerSeason != 0
      modifies this`currentDay, this`currentSeason, this`currentYear
      ensures Date() == DayAdvanced(old(Date()), enableSeasons, daysPerSeason)
    {
      currentDay := currentDay + 1;
      if enableSeasons && CsRem(currentDay - 1, daysPerSeason) == 0 && currentDay > 1 {
        AdvanceSeason();
      }
    }

    /** `UpdateGameTime`, given the frame's real seconds: the clock runs at the game speed,
        24 game hours to `realTimeToGameDayRatio` seconds, and a rollover begins the next
        day. */
    method UpdateGameTime(frameSeconds: real)
      requires realTimeToGameDayRatio != 0.0 && (!enableSeasons || daysPerSeason != 0)
      modifies this`currentGameTime, this`currentDay, this`currentSeason, this`currentYear
      ensures var step := ClockAdvanced(old(currentGameTime), frameSeconds * gameSpeed * (24.0 / realTimeToGameDayRatio));
        currentGameTime == step.0
        && Date() == if step.1 then DayAdvanced(old(Date()), enableSeasons, daysPerSeason) else old(Date())
    {
      var deltaTime := frameSeconds * gameSpeed;
      var gameHoursPerSecond := 24.0 / realTimeToGameDayRatio;
      ghost var hours := frameSeconds * gameSpeed * (24.0 / realTimeToGameDayRatio);
      assert deltaTime * gameHoursPerSecond == hours;
      currentGameTime := currentGameTime + deltaTime * gameHoursPerSecond;
      assert currentGameTime == old(currentGameTime) + hours;
      if currentGameTime >= 24.0 {
        currentGameTime := currentGameTime - 24.0;
        AdvanceDay();
      }
    }

    /** `Update`'s time part: the clock runs only while not paused. */
    method Update(frameSeconds: real)
      requires realTimeToGameDayRatio != 0.0 && (!enableSeasons || daysPerSeason != 0)
      modifies this`currentGameTime, this`currentDay, this`currentSeason, this`currentYear
      ensures isPaused ==> currentGameTime == old(currentGameTime) && Date() == old(Date())
      ensures !isPaused ==> var step := ClockAdvanced(old(currentGameTime), frameSeconds * gameSpeed * (24.0 / realTimeToGameDayRatio));
        currentGameTime == step.0
        && Date() == if step.1 then DayAdvanced(old(Date()), enableSeasons, daysPerSeason) else old(Date())
    {
      if !isPaused {
        UpdateGameTime(frameSeconds);
        assert !isPaused;
      }
    }

    /** `TogglePause` and `SetPaused`. */
    method TogglePause()
      modifies this`isPaused
      ensures isPaused == !old(isPaused)
    {
      isPaused := !isPaused;
    }

    method SetPaused(paused: bool)
      modifies this`isPaused
      ensures isPaused == paused
    {
      isPaused := paused;
    }

    /** `SetGameSpeed`: the requested speed clamped into [0.1, maxGameSpeed]. */
    method SetGameSpeed(speed: real)
      modifies this`gameSpeed
      ensures gameSpeed == Clamp(speed, 0.1, maxGameSpeed)
      ensures maxGameSpeed >= 0.1 ==> 0.1 <= gameSpeed <= maxGameSpeed
      ensures 0.1 <= speed <= maxGameSpeed ==> gameSpeed == speed
    {
      gameSpeed := Clamp(speed, 0.1, maxGameSpeed);
    }

    /** `IncreaseSpeed` and `DecreaseSpeed`: half a step either way, clamped. */
    method IncreaseSpeed()
      modifies this`gameSpeed
      ensures gameSpeed == Clamp(old(gameSpeed) + 0.5, 0.1, maxGameSpeed)
    {
      SetGameSpeed(gameSpeed + 0.5);
    }

    method DecreaseSpeed()
      modifies this`gameSpeed
      ensures gameSpeed == Clamp(old(gameSpeed) - 0.5, 0.1, maxGameSpeed)
    {
      SetGameSpeed(gameSpeed - 0.5);
    }

    /** `SkipToNextDay`: the clock to midnight and the next day begun. */
    method SkipToNextDay()
      requires !enableSeasons || daysPerSeason != 0
      modifies this`currentGameTime, this`currentDay, this`currentSeason, this`currentYear
      ensures currentGameTime == 0.0 && Date() == DayAdvanced(old(Date()), enableSeasons, daysPerSeason)
    {
      currentGameTime := 0.0;
      AdvanceDay();
    }

    /** `SkipToTime`: only an hour in [0, 24) is taken. */
    method SkipToTime(targetTime: real)
      modifies this`currentGameTime
      ensures 0.0 <= targetTime < 24.0 ==> currentGameTime == targetTime
      ensures !(0.0 <= targetTime < 24.0) ==> currentGameTime == old(currentGameTime)
    {
      if targetTime >= 0.0 && targetTime < 24.0 {
        currentGameTime := targetTime;
      }
    }

    /** `SetDate`. */
    method SetDate(year: int, day: int, season: int)
      modifies this`currentDay, this`currentSeason, this`currentYear
      ensures Date() == DateSet(year, day, season) && Date().Valid()
    {
      currentYear := MaxInt(1, year);
      currentDay := MaxInt(1, day);
      currentSeason := ClampInt(season, 0, 3);
    }

    /** `IsNight`: before six or after eighteen. */
    predicate IsNight()
      reads this
    {
      currentGameTime < 6.0 || currentGameTime > 18.0
    }

    /** `ShouldPopsSleep`: from 22 through 6. */
    predicate ShouldPopsSleep()
      reads this
    {
      currentGameTime >= 22.0 || currentGameTime <= 6.0
    }

    /** `GetTimeOfDayProductivityModifier`: full by day, half at night. */
    function ProductivityModifier(): (m: real)
      reads this
      ensures m == 1.0 <==> !IsNight()
      ensures IsNight() ==> m == 0.5
    {
      if !IsNight() then 1.0 else 0.5
    }

    /** Pops asked to sleep during the day: only at six exactly. The sleeping hours are
        otherwise night hours. */
    lemma SleepingHours()
      ensures ShouldPopsSleep() && !IsNight() <==> currentGameTime == 6.0
      ensures ShouldPopsSleep() && currentGameTime != 6.0 ==> IsNight()
    {
    }
  }
}
