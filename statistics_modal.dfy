/**
 * The figures the statistics dialog derives from a stored statistics record
 * and the saved game: wins, games played, win percentage, the largest bucket
 * of the guess distribution, the row to highlight, the countdown to the next
 * daily puzzle, and the battle-only reset.
 */
module StatisticsModal {
  import opened Wrappers
  import opened NumberText

  /** Rows of the guess distribution (the game's attempt limit). */
  const ROW_COUNT: nat := 6

  /** The evaluation string of a guess whose five letters are all correct. */
  const WIN_EVALUATION: string := "sssss"

  datatype GameType = Normal | Infinite | Custom | Battle

  /**
   * A stored statistics record. `success` is keyed by attempt index:
   * `success[i]` is the count of wins in i + 1 guesses, or None where the
   * record has no entry for that index. `win` and `draw` may be absent.
   */
  datatype StatisticsData = StatisticsData(
    success: seq<Option<nat>>,
    fail: nat,
    currentStreak: nat,
    maxStreak: nat,
    win: Option<nat>,
    draw: Option<nat>)

  /** The saved game, as far as the dialog reads it. */
  datatype GameData = GameData(evaluationList: seq<string>, state: string)

  /** The initial record: every count zero, no battle tallies. */
  function InitialStatistics(): StatisticsData {
    StatisticsData(seq(ROW_COUNT, _ => Some(0)), 0, 0, 0, None, None)
  }

  /** `x ?? 0` */
  function OrZero(x: Option<nat>): nat {
    match x
    case Some(v) => v
    case None => 0
  }

  /** `success[i] ?? 0`: the count of bucket i, 0 where the record has none. */
  function BucketCount(data: StatisticsData, i: nat): nat {
    if i < |data.success| then OrZero(data.success[i]) else 0
  }

  /** `Object.values(success)`: the counts present, in ascending key order. */
  function Values(buckets: seq<Option<nat>>): (values: seq<nat>)
    ensures |values| <= |buckets|
    ensures forall i :: 0 <= i < |buckets| && buckets[i].Some? ==> buckets[i].value in values
    ensures forall x :: x in values ==> Some(x) in buckets
    ensures values == [] <==> forall i :: 0 <= i < |buckets| ==> buckets[i].None?
  {
    if buckets == [] then []
    else
      var rest := Values(buckets[..|buckets| - 1]);
      match buckets[|buckets| - 1]
      case Some(v) => rest + [v]
      case None => rest
  }

  /** `Object.values` keeps every present count as often as keys hold it. */
  lemma {:induction false} ValuesCounts(buckets: seq<Option<nat>>)
    ensures multiset(Values(buckets)) == PresentCounts(buckets)
    decreases |buckets|
  {
    if buckets != [] {
      PresentCountsLast(buckets);
      ValuesCounts(buckets[..|buckets| - 1]);
    }
  }

  /** The counts the record holds, each as often as there are keys holding it. */
  function PresentCounts(buckets: seq<Option<nat>>): multiset<nat> {
    if buckets == [] then multiset{}
    else
      (match buckets[0] case Some(v) => multiset{v} case None => multiset{}) +
      PresentCounts(buckets[1..])
  }

  lemma {:induction false} PresentCountsSnoc(buckets: seq<Option<nat>>, last: Option<nat>)
    ensures PresentCounts(buckets + [last]) ==
      PresentCounts(buckets) + (match last case Some(v) => multiset{v} case None => multiset{})
    decreases |buckets|
  {
    if buckets != [] {
      assert (buckets + [last])[1..] == buckets[1..] + [last];
      PresentCountsSnoc(buckets[1..], last);
    }
  }

  lemma PresentCountsLast(buckets: seq<Option<nat>>)
    requires buckets != []
    ensures PresentCounts(buckets) == PresentCounts(buckets[..|buckets| - 1]) +
      (match buckets[|buckets| - 1] case Some(v) => multiset{v} case None => multiset{})
  {
    var init := buckets[..|buckets| - 1];
    assert buckets == init + [buckets[|buckets| - 1]];
    PresentCountsSnoc(init, buckets[|buckets| - 1]);
  }

  /**
   * The total of what the distribution's bars show, `success[i] ?? 0` summed
   * over the keys, front to back.
   */
  function KeyedSum(buckets: seq<Option<nat>>): nat {
    if buckets == [] then 0 else OrZero(buckets[0]) + KeyedSum(buckets[1..])
  }

  lemma {:induction false} KeyedSumSnoc(buckets: seq<Option<nat>>, last: Option<nat>)
    ensures KeyedSum(buckets + [last]) == KeyedSum(buckets) + OrZero(last)
    decreases |buckets|
  {
    if buckets != [] {
      assert (buckets + [last])[1..] == buckets[1..] + [last];
      KeyedSumSnoc(buckets[1..], last);
    }
  }

  /** Summing the present counts gives what summing every bar gives: absent keys add nothing. */
  lemma {:induction false} SumOfValues(buckets: seq<Option<nat>>)
    ensures Sum(Values(buckets)) == KeyedSum(buckets)
    decreases |buckets|
  {
    if buckets != [] {
      var init := buckets[..|buckets| - 1];
      var last := buckets[|buckets| - 1];
      assert buckets == init + [last];
      SumOfValues(init);
      KeyedSumSnoc(init, last);
      match last
      case Some(v) =>
        var values := Values(init) + [v];
        assert values[..|values| - 1] == Values(init);
      case None =>
    }
  }

  // ---------------------------------------------------------------------
  // Wins, games played, win percentage

  /** `values.reduce((p, c) => p + c, 0)`: a left-to-right sum. */
  function Sum(values: seq<nat>): (total: nat)
    ensures forall i :: 0 <= i < |values| ==> values[i] <= total
    ensures total == 0 <==> forall i :: 0 <= i < |values| ==> values[i] == 0
  {
    if values == [] then 0 else Sum(values[..|values| - 1]) + values[|values| - 1]
  }

  /** Sums add up over concatenation, which with `Sum([x]) == x` fixes `Sum` as the sum. */
  lemma {:induction false} SumAppend(a: seq<nat>, b: seq<nat>)
    ensures Sum(a + b) == Sum(a) + Sum(b)
    ensures |b| == 1 ==> Sum(b) == b[0]
    decreases |b|
  {
    assert |b| == 1 ==> b[..0] == [];
    if b != [] {
      var init := b[..|b| - 1];
      assert (a + b)[..|a + b| - 1] == a + init;
      SumAppend(a, init);
    } else {
      assert a + b == a;
    }
  }

  /** Wins: the battle tally, otherwise the sum of the distribution. */
  function WinCount(gameType: GameType, data: StatisticsData): (wins: nat)
    ensures gameType == Battle ==> wins == OrZero(data.win)
    ensures gameType != Battle ==> wins == KeyedSum(data.success)
    ensures gameType != Battle ==>
      forall i :: 0 <= i < |data.success| ==> BucketCount(data, i) <= wins
    ensures gameType != Battle ==>
      (wins == 0 <==> forall i :: 0 <= i < |data.success| ==> BucketCount(data, i) == 0)
  {
    if gameType == Battle then OrZero(data.win)
    else
      NoWinsNoBuckets(data);
      SumOfValues(data.success);
      Sum(Values(data.success))
  }

  lemma NoWinsNoBuckets(data: StatisticsData)
    ensures Sum(Values(data.success)) == 0 <==>
      forall i :: 0 <= i < |data.success| ==> BucketCount(data, i) == 0
  {
    var values := Values(data.success);
    if forall i :: 0 <= i < |data.success| ==> BucketCount(data, i) == 0 {
      forall k | 0 <= k < |values| ensures values[k] == 0 {
        assert Some(values[k]) in data.success;
        var i :| 0 <= i < |data.success| && data.success[i] == Some(values[k]);
        assert BucketCount(data, i) == values[k];
      }
    }
  }

  /** Games played: wins, draws and losses in battle, otherwise losses and wins. */
  function Played(gameType: GameType, data: StatisticsData): (played: nat)
    ensures WinCount(gameType, data) <= played
    ensures data.fail <= played
  {
    if gameType == Battle then OrZero(data.win) + data.fail + OrZero(data.draw)
    else data.fail + WinCount(gameType, data)
  }

  /** Nothing was played exactly when the record counts no game of any kind. */
  lemma NothingPlayed(gameType: GameType, data: StatisticsData)
    ensures gameType == Battle ==> (Played(gameType, data) == 0 <==>
      OrZero(data.win) == 0 && data.fail == 0 && OrZero(data.draw) == 0)
    ensures gameType != Battle ==> (Played(gameType, data) == 0 <==>
      data.fail == 0 && forall i :: 0 <= i < |data.success| ==> BucketCount(data, i) == 0)
  {
  }

  /**
   * `Math.round(n / d)` for non-negative n and positive d: the nearest
   * integer, halves rounded up.
   */
  function RoundHalfUp(n: nat, d: nat): (r: nat)
    requires 0 < d
    ensures r * (2 * d) <= 2 * n + d < (r + 1) * (2 * d)
  {
    (2 * n + d) / (2 * d)
  }

  /** The win percentage shown: 0 when nothing was played, otherwise 100 * wins / played rounded. */
  function WinRate(gameType: GameType, data: StatisticsData): (rate: nat)
    ensures rate <= 100
    ensures Played(gameType, data) == 0 ==> rate == 0
    ensures 0 < Played(gameType, data) ==>
      rate * (2 * Played(gameType, data)) <= 200 * WinCount(gameType, data) + Played(gameType, data)
        < (rate + 1) * (2 * Played(gameType, data))
  {
    Percent(WinCount(gameType, data), Played(gameType, data))
  }

  /** `Math.round(wins / played * 100)`, or 0 when nothing was played. */
  function Percent(wins: nat, played: nat): (rate: nat)
    requires wins <= played
    ensures rate <= 100
    ensures played == 0 ==> rate == 0
    ensures 0 < played ==> rate * (2 * played) <= 200 * wins + played < (rate + 1) * (2 * played)
  {
    if played == 0 then 0
    else
      PercentBounds(wins, played);
      RoundHalfUp(100 * wins, played)
  }

  /** A win percentage is 100 when every game was won and 0 when none was. */
  lemma {:induction false} WinRateBounds(gameType: GameType, data: StatisticsData)
    ensures Played(gameType, data) == WinCount(gameType, data) > 0 ==>
      WinRate(gameType, data) == 100
    ensures WinCount(gameType, data) == 0 ==> WinRate(gameType, data) == 0
  {
    var w, p := WinCount(gameType, data), Played(gameType, data);
    if p > 0 {
      PercentBounds(w, p);
    }
  }

  /** Rounding 100 * w / p, for w <= p, lands in 0..100, at the ends exactly when w is. */
  lemma PercentBounds(w: nat, p: nat)
    requires w <= p && 0 < p
    ensures RoundHalfUp(100 * w, p) <= 100
    ensures w == p ==> RoundHalfUp(100 * w, p) == 100
    ensures w == 0 ==> RoundHalfUp(100 * w, p) == 0
  {
    var r := RoundHalfUp(100 * w, p);
    var d := 2 * p;
    assert r * d < 101 * d by {
      assert r * d <= 200 * w + p;
      assert 200 * w + p <= 200 * p + p;
    }
    CancelLess(r, 101, d);
    if w == p {
      assert 100 * d <= 200 * w + p < (r + 1) * d;
      CancelLess(99, r, d);
    }
    if w == 0 {
      assert r * d <= p < 1 * d;
      CancelLess(r, 1, d);
    }
  }

  lemma MulMonotone(a: int, b: int, c: nat)
    requires a <= b
    ensures a * c <= b * c
  {
  }

  lemma CancelLess(a: int, b: int, c: nat)
    requires 0 < c && a * c < b * c
    ensures a < b
  {
    if b <= a {
      MulMonotone(b, a, c);
    }
  }

  // ---------------------------------------------------------------------
  // Largest bucket of the distribution

  /** What `Math.max(...values)` yields: -Infinity for no values. */
  datatype MaxValue = NegativeInfinity | Finite(value: nat)

  /** `Math.max(...values)`. */
  function Max(values: seq<nat>): (m: MaxValue)
    ensures m.NegativeInfinity? <==> values == []
    ensures m.Finite? ==> forall i :: 0 <= i < |values| ==> values[i] <= m.value
    ensures m.Finite? ==> exists i :: 0 <= i < |values| && values[i] == m.value
  {
    if values == [] then NegativeInfinity
    else
      var rest := Max(values[..|values| - 1]);
      var last := values[|values| - 1];
      if rest.Finite? && last < rest.value then rest else Finite(last)
  }

  /** `Math.max(...Object.values(success))`: the largest bucket, -Infinity when there is none. */
  function MaxSuccess(data: StatisticsData): (m: MaxValue)
    ensures m.NegativeInfinity? <==> forall i :: 0 <= i < |data.success| ==> data.success[i].None?
    ensures m.Finite? ==> forall i :: 0 <= i < |data.success| ==> BucketCount(data, i) <= m.value
    ensures m.Finite? ==> exists i :: 0 <= i < |data.success| && data.success[i] == Some(m.value)
  {
    Max(Values(data.success))
  }

  // ---------------------------------------------------------------------
  // Highlighted row of the distribution

  /** `list.indexOf(x)`: the first position holding x, or -1. */
  function IndexOf(list: seq<string>, x: string): (k: int)
    ensures -1 <= k < |list|
    ensures k == -1 <==> x !in list
    ensures 0 <= k ==> list[k] == x && forall j :: 0 <= j < k ==> list[j] != x
  {
    if list == [] then -1
    else if list[0] == x then 0
    else
      var k := IndexOf(list[1..], x);
      if k == -1 then -1 else k + 1
  }

  /** The row of the first all-correct evaluation of the saved game, or -1 when there is none. */
  function LastWinRow(gameData: GameData): (row: int)
    ensures -1 <= row < |gameData.evaluationList|
    ensures row == -1 <==> WIN_EVALUATION !in gameData.evaluationList
    ensures 0 <= row ==> (gameData.evaluationList[row] == WIN_EVALUATION &&
      forall j :: 0 <= j < row ==> gameData.evaluationList[j] != WIN_EVALUATION)
  {
    IndexOf(gameData.evaluationList, WIN_EVALUATION)
  }

  /** One bar of the guess distribution: its caption, the count it shows, whether it is marked "last". */
  datatype DistributionBar = DistributionBar(attempts: nat, count: nat, last: bool)

  function MarkedBars(bars: seq<DistributionBar>): set<nat> {
    set i: nat | i < |bars| && bars[i].last
  }

  /** The ROW_COUNT bars; exactly the bar of `lastWinRow` is marked, none when it is off the chart. */
  function DistributionBars(data: StatisticsData, lastWinRow: int): (bars: seq<DistributionBar>)
    ensures |bars| == ROW_COUNT
    ensures forall i :: 0 <= i < ROW_COUNT ==>
      bars[i].attempts == i + 1 && bars[i].count == BucketCount(data, i)
    ensures MarkedBars(bars) == if 0 <= lastWinRow < ROW_COUNT then {lastWinRow as nat} else {}
  {
    var bars := seq(ROW_COUNT, i requires 0 <= i < ROW_COUNT =>
      DistributionBar(i + 1, BucketCount(data, i), i == lastWinRow));
    assert 0 <= lastWinRow < ROW_COUNT ==> bars[lastWinRow].last;
    bars
  }

  /**
   * A marked bar is the row of the game's first all-correct evaluation, and
   * such an evaluation within the first ROW_COUNT rows marks its bar.
   */
  lemma MarkedBarIsWinningRow(data: StatisticsData, gameData: GameData)
    ensures forall i :: i in MarkedBars(DistributionBars(data, LastWinRow(gameData))) ==>
      i < |gameData.evaluationList| && gameData.evaluationList[i] == WIN_EVALUATION &&
      forall j :: 0 <= j < i ==> gameData.evaluationList[j] != WIN_EVALUATION
    ensures forall i :: (0 <= i < ROW_COUNT && i < |gameData.evaluationList| &&
      gameData.evaluationList[i] == WIN_EVALUATION) ==>
      |MarkedBars(DistributionBars(data, LastWinRow(gameData)))| == 1
  {
    var row := LastWinRow(gameData);
    forall i | 0 <= i < ROW_COUNT && i < |gameData.evaluationList| &&
      gameData.evaluationList[i] == WIN_EVALUATION
      ensures |MarkedBars(DistributionBars(data, row))| == 1
    {
      assert gameData.evaluationList[i] in gameData.evaluationList;
      assert row <= i;
    }
  }

  /** No bar shows more than the largest bucket, and with no bucket every bar shows 0. */
  lemma BarLabelsWithinMax(data: StatisticsData, lastWinRow: int)
    ensures MaxSuccess(data).Finite? ==> forall i :: 0 <= i < ROW_COUNT ==>
      DistributionBars(data, lastWinRow)[i].count <= MaxSuccess(data).value
    ensures MaxSuccess(data).NegativeInfinity? ==> forall i :: 0 <= i < ROW_COUNT ==>
      DistributionBars(data, lastWinRow)[i].count == 0
  {
  }

  // ---------------------------------------------------------------------
  // Countdown to the next daily puzzle

  const MS_PER_SECOND: nat := 1000
  const MS_PER_MINUTE: nat := 60 * MS_PER_SECOND
  const MS_PER_HOUR: nat := 60 * MS_PER_MINUTE
  const MS_PER_DAY: nat := 24 * MS_PER_HOUR

  /** A local time of day, in milliseconds since midnight. */
  type TimeOfDay = t: nat | t < MS_PER_DAY

  /**
   * When the next puzzle appears, in milliseconds since today's midnight:
   * today's noon when the hour is before 12, otherwise the next midnight.
   * That is the first noon or midnight after `now`.
   */
  function NextPuzzleAt(now: TimeOfDay): (next: nat)
    ensures now < next <= now + 12 * MS_PER_HOUR
    ensures next % (12 * MS_PER_HOUR) == 0
  {
    if now / MS_PER_HOUR < 12 then 12 * MS_PER_HOUR else MS_PER_DAY
  }

  datatype Countdown = Countdown(hours: nat, minutes: nat, seconds: nat)

  /**
   * `floor(asHours)`, `floor(asMinutes % 60)` and `floor(asSeconds % 60)` of a
   * duration of `remaining` milliseconds.
   */
  function CountdownFields(remaining: nat): (c: Countdown)
    ensures c.minutes < 60 && c.seconds < 60
    ensures (c.hours * 60 + c.minutes) * 60 + c.seconds == remaining / MS_PER_SECOND
  {
    WholeUnits(remaining);
    Countdown(remaining / MS_PER_HOUR, (remaining / MS_PER_MINUTE) % 60,
      (remaining / MS_PER_SECOND) % 60)
  }

  lemma WholeUnits(ms: nat)
    ensures ms / MS_PER_MINUTE == (ms / MS_PER_SECOND) / 60
    ensures ms / MS_PER_HOUR == (ms / MS_PER_MINUTE) / 60
  {
  }

  /** The countdown the dialog shows at time of day `now`: never more than 12:00:00. */
  function CountdownAt(now: TimeOfDay): (c: Countdown)
    ensures c.hours <= 12 && c.minutes < 60 && c.seconds < 60
    ensures c.hours == 12 ==> c.minutes == 0 && c.seconds == 0
    ensures (c.hours * 60 + c.minutes) * 60 + c.seconds == (NextPuzzleAt(now) - now) / MS_PER_SECOND
  {
    var remaining := NextPuzzleAt(now) - now;
    assert remaining / MS_PER_SECOND <= 12 * 60 * 60;
    CountdownFields(remaining)
  }

  /** `hh:mm:ss`, each field `toString().padStart(2, "0")`. */
  function CountdownText(c: Countdown): (t: string)
    ensures c.hours < 100 && c.minutes < 100 && c.seconds < 100 ==>
      |t| == 8 && t[2] == ':' && t[5] == ':'
  {
    var h := PadStart(NatToString(c.hours), 2, '0');
    var m := PadStart(NatToString(c.minutes), 2, '0');
    var s := PadStart(NatToString(c.seconds), 2, '0');
    if c.hours < 100 && c.minutes < 100 && c.seconds < 100 then
      TwoDigitRoundTrip(c.hours);
      TwoDigitRoundTrip(c.minutes);
      TwoDigitRoundTrip(c.seconds);
      JoinFields(h, m, s);
      h + ":" + m + ":" + s
    else
      h + ":" + m + ":" + s
  }

  /** Three two-character fields joined by colons, and where each one lands. */
  lemma JoinFields(h: string, m: string, s: string)
    requires |h| == 2 && |m| == 2 && |s| == 2
    ensures var t := h + ":" + m + ":" + s;
      |t| == 8 && t[0..2] == h && t[2] == ':' && t[3..5] == m && t[5] == ':' && t[6..8] == s
  {
  }

  /** Below 100 hours the three fields read back from the text. */
  lemma {:induction false} CountdownTextRoundTrip(c: Countdown)
    requires c.hours < 100 && c.minutes < 60 && c.seconds < 60
    ensures var t := CountdownText(c);
      |t| == 8 &&
      AllDigits(t[0..2]) && AllDigits(t[3..5]) && AllDigits(t[6..8]) &&
      DecimalValue(t[0..2]) == c.hours &&
      DecimalValue(t[3..5]) == c.minutes &&
      DecimalValue(t[6..8]) == c.seconds
  {
    var h := PadStart(NatToString(c.hours), 2, '0');
    var m := PadStart(NatToString(c.minutes), 2, '0');
    var s := PadStart(NatToString(c.seconds), 2, '0');
    TwoDigitRoundTrip(c.hours);
    TwoDigitRoundTrip(c.minutes);
    TwoDigitRoundTrip(c.seconds);
    JoinFields(h, m, s);
    assert CountdownText(c) == h + ":" + m + ":" + s;
  }

  /** The text the dialog shows at time of day `now`: a zero-padded `hh:mm:ss` of at most 12:00:00. */
  function NextTimeText(now: TimeOfDay): (t: string)
    ensures |t| == 8 && t[2] == ':' && t[5] == ':'
    ensures AllDigits(t[0..2]) && AllDigits(t[3..5]) && AllDigits(t[6..8])
    ensures DecimalValue(t[0..2]) <= 12 && DecimalValue(t[3..5]) < 60 && DecimalValue(t[6..8]) < 60
  {
    CountdownTextRoundTrip(CountdownAt(now));
    CountdownText(CountdownAt(now))
  }

  // ---------------------------------------------------------------------
  // Reset

  /** The record after a confirmed reset: a battle record loses every game; others are kept. */
  function ResetRecord(gameType: GameType, data: StatisticsData): (r: StatisticsData)
    ensures gameType != Battle ==> r == data
    ensures gameType == Battle ==>
      Played(gameType, r) == 0 && WinRate(gameType, r) == 0 &&
      r.currentStreak == 0 && r.maxStreak == 0
    ensures gameType == Battle ==> forall i :: 0 <= i < ROW_COUNT ==> BucketCount(r, i) == 0
  {
    if gameType == Battle then InitialStatistics() else data
  }

  /** After a battle reset the largest bucket is 0 and every bar shows 0; resetting twice is resetting once. */
  lemma ResetClearsBattleOnly(gameType: GameType, data: StatisticsData, lastWinRow: int)
    ensures gameType == Battle ==> MaxSuccess(ResetRecord(gameType, data)) == Finite(0)
    ensures gameType == Battle ==> forall i :: 0 <= i < ROW_COUNT ==>
      DistributionBars(ResetRecord(gameType, data), lastWinRow)[i].count == 0
    ensures ResetRecord(gameType, ResetRecord(gameType, data)) == ResetRecord(gameType, data)
  {
    if gameType == Battle {
      var r := ResetRecord(gameType, data);
      assert r.success[0] == Some(0);
    }
  }

  // ---------------------------------------------------------------------
  // The dialog's state

  /**
   * The state the dialog keeps between renders, and the statistics it has
   * saved for each game type.
   */
  class StatisticsDialog {
    var gameType: GameType
    var statisticsData: StatisticsData
    var isFinish: bool
    var nextTime: string
    var lastWinRow: int
    /** Whether a once-a-second countdown interval has been started and not cleared. */
    var countdownRunning: bool
    /** The records this dialog has written to storage, by game type. */
    var saved: map<GameType, StatisticsData>

    constructor (gameType: GameType)
      ensures this.gameType == gameType
      ensures statisticsData == InitialStatistics() && !isFinish && nextTime == ""
      ensures lastWinRow == -1 && !countdownRunning && saved == map[]
    {
      this.gameType := gameType;
      statisticsData := InitialStatistics();
      isFinish := false;
      nextTime := "";
      lastWinRow := -1;
      countdownRunning := false;
      saved := map[];
    }

    /**
     * The effect run when the dialog opens, or when the game type changes while
     * it is open: it loads the stored record and the saved game of that type.
     */
    method Show(gameType: GameType, stored: StatisticsData, gameData: GameData)
      modifies this
      ensures this.gameType == gameType
      ensures statisticsData == stored
      ensures lastWinRow == LastWinRow(gameData)
      ensures isFinish == (gameData.state == "FINISH")
      ensures countdownRunning == (old(countdownRunning) || (gameType == Normal && isFinish))
      ensures nextTime == old(nextTime) && saved == old(saved)
    {
      this.gameType := gameType;
      statisticsData := stored;
      lastWinRow := IndexOf(gameData.evaluationList, WIN_EVALUATION);
      isFinish := gameData.state == "FINISH";
      if gameType == Normal && gameData.state == "FINISH" {
        countdownRunning := true;
      }
    }

    /** The effect run when the dialog is closed: the countdown interval is cleared. */
    method Hide(gameType: GameType)
      modifies this`countdownRunning, this`gameType
      ensures this.gameType == gameType && !countdownRunning
    {
      this.gameType := gameType;
      countdownRunning := false;
    }

    /** One tick of the countdown interval at time of day `now`. */
    method Tick(now: TimeOfDay)
      requires countdownRunning
      modifies this`nextTime
      ensures nextTime == NextTimeText(now)
    {
      var remaining := NextPuzzleAt(now) - now;
      var hours := remaining / MS_PER_HOUR;
      var minutes := (remaining / MS_PER_MINUTE) % 60;
      var seconds := (remaining / MS_PER_SECOND) % 60;
      assert Countdown(hours, minutes, seconds) == CountdownAt(now);
      nextTime := CountdownText(Countdown(hours, minutes, seconds));
    }

    /** A confirmed reset: a battle record is replaced by the initial one and saved. */
    method OnClickReset()
      modifies this`statisticsData, this`saved
      ensures statisticsData == ResetRecord(gameType, old(statisticsData))
      ensures saved == if gameType == Battle then old(saved)[gameType := InitialStatistics()]
        else old(saved)
    {
      if gameType == Battle {
        statisticsData := InitialStatistics();
        saved := saved[gameType := InitialStatistics()];
      }
    }
  }
}
