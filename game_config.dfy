/**
 * dist-server/shared/Config.js: the game's constants and its two clocks.
 * The day clock runs one game day per real hour, non-linearly: the first
 * 45 minutes cover 06:00 to 22:00 and the last 15 cover 22:00 to 06:00.
 * The academic calendar counts real weeks since the world started: eight
 * weeks make a course, and each week of a course has a month name.
 */
module GameConfig {

  // ------------------------------------------------------------ constants

  const ServerFps: nat := 30
  const PlayerSpeed: nat := 120
  const PlayerRadius: nat := 20
  const ViewDistance: nat := 1200
  const ChatMaxLength: nat := 100
  const ChatHistorySize: nat := 50
  /** One game day per real hour. */
  const CycleDurationMs: nat := 3600000
  /** The day phase is the first 45 minutes of the hour. */
  const DayPhaseDurationMs: nat := 2700000
  const AiDetectionRadius: nat := 100
  const AiPersonalSpace: nat := 40
  const WeeksPerCourse: nat := 8
  const MsPerWeek: nat := 7 * 24 * 60 * 60 * 1000

  /** A point of the map, in pixels. */
  datatype Point = Point(x: int, y: int)

  const SpawnPoint: Point := Point(256, 256)

  /** One row of the timetable: `start` to `end` hours, wrapping past midnight when `end <= start`. */
  datatype Slot = Slot(start: nat, end: nat, name: string, location: string, activity: string)

  /** `ACADEMIC_SCHEDULE`. */
  const AcademicSchedule: seq<Slot> := [
    Slot(8, 10, "Charms Class", "Classroom", "class"),
    Slot(10, 12, "Free Time", "Courtyard", "free"),
    Slot(12, 14, "Lunch", "Great Hall", "eat"),
    Slot(15, 17, "Potions Class", "Dungeons", "class"),
    Slot(17, 22, "Extra-Curricular", "Forest/Tatami", "free"),
    Slot(22, 8, "Curfew", "Dormitories", "sleep")]

  /** `SCHOOL_LOCATIONS`. */
  const DormIgnis: Point := Point(576, 480)
  const DormAxiom: Point := Point(576, 1120)
  const DormVesper: Point := Point(576, 1760)
  const GreatHall: Point := Point(1600, 560)
  const AcademicWing: Point := Point(1600, 1360)
  const TrainingGrounds: Point := Point(2640, 1520)
  const AlchemyLab: Point := Point(2592, 640)
  const Courtyard: Point := Point(1056, 1280)
  const Forest: Point := Point(1600, 2880)

  /** `DUEL_ZONE`: the tatami, a circle on the training grounds. */
  const DuelZoneCentre: Point := Point(2640, 1520)
  const DuelZoneRadius: nat := 300

  /** `RPS_MAP`: the rock-paper-scissors type of each spell shape. */
  const RpsMap: map<string, string> := map["circle" := "rock", "square" := "paper", "triangle" := "scissors"]

  /** `RPS_WINNER`: the type each type beats. */
  const RpsWinner: map<string, string> := map["rock" := "scissors", "scissors" := "paper", "paper" := "rock"]

  // -------------------------------------------------------------- day clock

  /** The result of `getGameTime`. */
  datatype GameTime = GameTime(hour: int, minute: int, isNight: bool)

  /** JavaScript's `%` on numbers, for a positive divisor: the remainder takes the dividend's sign. */
  function JsRem(a: int, b: int): (r: int)
    requires b > 0
    ensures a >= 0 ==> r == a % b
    ensures a < 0 ==> -b < r <= 0
  {
    if a >= 0 then a % b else -((-a) % b)
  }

  /** `Math.floor(x % 60)` for a non-negative `x`. */
  function MinuteOf(total: real): int
    requires total >= 0.0
  {
    (total - 60.0 * ((total / 60.0).Floor as real)).Floor
  }

  /** The game minutes since midnight at cycle position `pos`, before flooring. */
  function TotalGameMinutes(pos: nat): (m: real)
    requires pos < CycleDurationMs
  {
    if pos < DayPhaseDurationMs then
      6.0 * 60.0 + (pos as real / DayPhaseDurationMs as real) * 16.0 * 60.0
    else
      22.0 * 60.0 + ((pos - DayPhaseDurationMs) as real / (CycleDurationMs - DayPhaseDurationMs) as real) * 8.0 * 60.0
  }

  /**
   * `getGameTime` on a non-negative timestamp: hour and minute of the game
   * clock and whether it is night, from the position in the real hour.
   */
  function GetGameTime(timestamp: nat): (t: GameTime)
    ensures 0 <= t.hour < 24 && 0 <= t.minute < 60
    ensures t.isNight <==> timestamp % CycleDurationMs >= DayPhaseDurationMs
  {
    var cyclePos := JsRem(timestamp, CycleDurationMs);
    var total := TotalGameMinutes(cyclePos);
    MinuteBounds(total);
    GameTime((total / 60.0).Floor % 24, MinuteOf(total), cyclePos >= DayPhaseDurationMs)
  }

  /** `Math.floor(x % 60)` is a minute of the hour, and with the hour it rebuilds the floored total. */
  lemma MinuteBounds(total: real)
    requires total >= 0.0
    ensures 0 <= MinuteOf(total) < 60
    ensures 60 * (total / 60.0).Floor + MinuteOf(total) == total.Floor
  {
    var h := (total / 60.0).Floor;
    assert h as real <= total / 60.0 < h as real + 1.0;
    var rest := total - 60.0 * h as real;
    assert 0.0 <= rest < 60.0;
    assert (rest + 60.0 * h as real).Floor == rest.Floor + 60 * h;
  }

  /** The clock depends only on the position within the real hour. */
  lemma GameTimePeriodic(timestamp: nat, k: nat)
    ensures GetGameTime(timestamp + k * CycleDurationMs) == GetGameTime(timestamp)
  {
    assert (timestamp + k * CycleDurationMs) % CycleDurationMs == timestamp % CycleDurationMs;
  }

  /** The hour starts at 06:00, night falls at 22:00, and the day phase stays within 06:00 to 21:59. */
  lemma GameTimeAnchors(timestamp: nat)
    ensures timestamp % CycleDurationMs == 0 ==> GetGameTime(timestamp) == GameTime(6, 0, false)
    ensures timestamp % CycleDurationMs == DayPhaseDurationMs ==> GetGameTime(timestamp) == GameTime(22, 0, true)
    ensures timestamp % CycleDurationMs < DayPhaseDurationMs ==> 6 <= GetGameTime(timestamp).hour <= 21
  {
    var pos := timestamp % CycleDurationMs;
    var total := TotalGameMinutes(pos);
    MinuteBounds(total);
    if pos < DayPhaseDurationMs {
      assert 360.0 <= total < 1320.0;
    }
  }

  /** Within one phase, the game minutes never decrease as the real time advances. */
  lemma GameMinutesMonotone(p1: nat, p2: nat)
    requires p1 <= p2 < CycleDurationMs
    requires (p1 < DayPhaseDurationMs) == (p2 < DayPhaseDurationMs)
    ensures TotalGameMinutes(p1) <= TotalGameMinutes(p2)
  {
  }

  /** The clock shows the floored game minutes since midnight, taken modulo a day. */
  lemma ClockShowsTotal(timestamp: nat)
    ensures var t := GetGameTime(timestamp);
      60 * t.hour + t.minute == TotalGameMinutes(timestamp % CycleDurationMs).Floor % 1440
  {
    var total := TotalGameMinutes(timestamp % CycleDurationMs);
    TotalBounds(timestamp % CycleDurationMs);
    MinuteBounds(total);
    FloorShift(total, 1440);
  }

  /** The game minutes run from 06:00 up to, not including, 06:00 of the next day. */
  lemma TotalBounds(pos: nat)
    requires pos < CycleDurationMs
    ensures 360.0 <= TotalGameMinutes(pos) < 1800.0
  {
  }

  /** Taking the floored minutes modulo a day is taking the floored hours modulo 24. */
  lemma FloorShift(total: real, day: int)
    requires day == 1440 && 0.0 <= total < 1800.0
    ensures 60 * ((total / 60.0).Floor % 24) + MinuteOf(total) == total.Floor % day
  {
    MinuteBounds(total);
    var h := (total / 60.0).Floor;
    assert 0 <= h < 30;
    if h >= 24 {
      assert total.Floor == day + (60 * (h - 24) + MinuteOf(total));
    }
  }

  /** `getGameHour`: the hour of the clock now. */
  function GetGameHour(now: nat): (h: int)
    ensures 0 <= h < 24
  {
    GetGameTime(now).hour
  }

  // ----------------------------------------------------- academic calendar

  /** The month name of each week of a course. */
  const Months: seq<string> := ["November", "December", "January", "February", "March", "April", "May", "June"]

  /** The result of `getAcademicProgress`. */
  datatype Progress = Progress(currentCourse: int, currentWeek: int, currentMonth: string)

  /**
   * `getAcademicProgress`: whole weeks since the world started (floored),
   * the course they fall in (from 1), the week of that course (from 1) and
   * its month; a week outside 1..8, reached only before the start, reads
   * "June".
   */
  function GetAcademicProgress(worldStartTime: int, now: int): (p: Progress)
  {
    var elapsedMs := now - worldStartTime;
    var totalWeeks := elapsedMs / MsPerWeek;
    var week := JsRem(totalWeeks, WeeksPerCourse) + 1;
    Progress(totalWeeks / WeeksPerCourse + 1, week, if 1 <= week <= |Months| then Months[week - 1] else "June")
  }

  /** From the start on, the week is 1 to 8, the course is at least 1, and the month is that week's. */
  lemma ProgressBounds(worldStartTime: int, now: int)
    requires now >= worldStartTime
    ensures var p := GetAcademicProgress(worldStartTime, now);
      && 1 <= p.currentWeek <= 8 && p.currentCourse >= 1
      && p.currentCourse == (now - worldStartTime) / MsPerWeek / WeeksPerCourse + 1
      && p.currentMonth == Months[p.currentWeek - 1]
      && (p.currentCourse - 1) * 8 + (p.currentWeek - 1) == (now - worldStartTime) / MsPerWeek
  {
  }

  /** Eight more weeks make exactly one more course, in the same week and month. */
  lemma CourseAdvances(worldStartTime: int, now: int)
    requires now >= worldStartTime
    ensures var p, q := GetAcademicProgress(worldStartTime, now), GetAcademicProgress(worldStartTime, now + WeeksPerCourse * MsPerWeek);
      q.currentCourse == p.currentCourse + 1 && q.currentWeek == p.currentWeek && q.currentMonth == p.currentMonth
  {
    var e := now - worldStartTime;
    assert (e + WeeksPerCourse * MsPerWeek) / MsPerWeek == e / MsPerWeek + WeeksPerCourse;
  }

  /** Before the start, the week is -6 to 1 and every week but 1 reads "June". */
  lemma ProgressBeforeStart(worldStartTime: int, now: int)
    requires now < worldStartTime
    ensures var p := GetAcademicProgress(worldStartTime, now);
      -6 <= p.currentWeek <= 1 && p.currentCourse <= 0 && (p.currentWeek != 1 ==> p.currentMonth == "June")
  {
  }
}
