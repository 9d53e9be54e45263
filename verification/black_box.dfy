/**
 * The black-box replay panel's state logic: a clamped random walk for the demo
 * temperature and CO2 readings, two 15-point series with a sliding x axis, the video
 * clock that wraps after 300 s, the +/-5 s buttons, and play/pause.
 * Each `Random.nextDouble` draw is a parameter in [0, 1).
 */
module BlackBox {
  import opened JavaText
  import Capped
  import Json

  const MaxDataPoints: nat := 15
  const VideoLength: int := 300
  const SkipSeconds: int := 5

  datatype Sample = Sample(x: int, value: real)

  datatype Panel = Panel(
    temp: real, co2: real,
    tempSeries: seq<Sample>, co2Series: seq<Sample>,
    timeCounter: int, axisLower: int, axisUpper: int,
    videoTime: int, slider: real,
    playing: bool)

  const InitialPanel := Panel(24.0, 420.0, [], [], 0, 0, 15, 120, 120.0, false)

  function Clamp(v: real, lo: real, hi: real): (r: real)
    requires lo <= hi
    ensures lo <= r <= hi
    ensures lo <= v <= hi ==> r == v
  {
    if v > hi then hi else if v < lo then lo else v
  }

  predicate IsDraw(u: real) {
    0.0 <= u < 1.0
  }

  /** One tick of `startDataUpdates`, with `u` and `w` the two draws. */
  function DataTick(p: Panel, u: real, w: real): (r: Panel)
    requires IsDraw(u) && IsDraw(w)
    requires |p.tempSeries| <= MaxDataPoints && |p.co2Series| <= MaxDataPoints
    ensures !p.playing ==> r == p
    ensures p.playing ==> 18.0 <= r.temp <= 32.0 && 350.0 <= r.co2 <= 700.0
    ensures p.playing ==> r.timeCounter == p.timeCounter + 1
    ensures p.playing ==> r.tempSeries == Capped.Newest(p.tempSeries + [Sample(p.timeCounter, r.temp)], MaxDataPoints)
    ensures p.playing ==> r.co2Series == Capped.Newest(p.co2Series + [Sample(p.timeCounter, r.co2)], MaxDataPoints)
    ensures r.videoTime == p.videoTime && r.slider == p.slider && r.playing == p.playing
  {
    if !p.playing then p
    else
      var temp := Clamp(p.temp + (u - 0.5) * 2.0, 18.0, 32.0);
      var co2 := Clamp(p.co2 + (w - 0.5) * 30.0, 350.0, 700.0);
      var t := p.timeCounter;
      var lower := if t >= MaxDataPoints then t - MaxDataPoints + 1 else p.axisLower;
      var upper := if t >= MaxDataPoints then t else p.axisUpper;
      p.(temp := temp, co2 := co2,
         tempSeries := Capped.Push(p.tempSeries, Sample(t, temp), MaxDataPoints),
         co2Series := Capped.Push(p.co2Series, Sample(t, co2), MaxDataPoints),
         timeCounter := t + 1, axisLower := lower, axisUpper := upper)
  }

  /** The slider's value listener: `videoTime` follows `intValue()` of the slider whenever the value changes. */
  function SetSlider(p: Panel, v: real): (r: Panel)
    ensures v != p.slider ==> r.slider == v && r.videoTime == Json.TruncateToInt(v)
    ensures v == p.slider ==> r == p
  {
    if v == p.slider then p else p.(slider := v, videoTime := Json.TruncateToInt(v))
  }

  function Max(a: real, b: real): real { if a >= b then a else b }
  function Min(a: real, b: real): real { if a <= b then a else b }

  /** The -5 s button. */
  function Back(p: Panel): (r: Panel)
    requires 0.0 <= p.slider <= VideoLength as real
    ensures 0.0 <= r.slider <= VideoLength as real
  {
    SetSlider(p, Max(0.0, p.slider - SkipSeconds as real))
  }

  /** The +5 s button. */
  function Forward(p: Panel): (r: Panel)
    requires 0.0 <= p.slider <= VideoLength as real
    ensures 0.0 <= r.slider <= VideoLength as real
  {
    SetSlider(p, Min(VideoLength as real, p.slider + SkipSeconds as real))
  }

  /** The clock step of `startVideoTimer`. */
  function NextVideoTime(t: int): (r: int)
    ensures 0 <= t < VideoLength ==> r == t + 1
    ensures t >= VideoLength ==> r == 0
  {
    if t + 1 > VideoLength then 0 else t + 1
  }

  /** One tick of `startVideoTimer`. */
  function VideoTick(p: Panel): (r: Panel)
    ensures !p.playing ==> r == p
    ensures p.playing ==> r.videoTime == NextVideoTime(p.videoTime) && r.slider == r.videoTime as real
  {
    if !p.playing then p
    else
      var t := NextVideoTime(p.videoTime);
      SetSlider(p.(videoTime := t), t as real)
  }

  function TogglePlayPause(p: Panel): (r: Panel)
    ensures r.playing != p.playing && r.(playing := p.playing) == p
  {
    p.(playing := !p.playing)
  }

  function Play(p: Panel): (r: Panel)
    ensures r.playing && r == p.(playing := true)
  {
    if !p.playing then TogglePlayPause(p) else p
  }

  function Pause(p: Panel): (r: Panel)
    ensures !r.playing && r == p.(playing := false)
  {
    if p.playing then TogglePlayPause(p) else p
  }

  /** Two digits, zero-padded (`%02d` on 0..59). */
  function TwoDigits(n: nat): (r: string)
    requires n < 100
    ensures |r| == 2 && r[0] == Digit(n / 10) && r[1] == Digit(n % 10)
  {
    [Digit(n / 10), Digit(n % 10)]
  }

  /** The time label `"%d:%02d"` of minutes and seconds. */
  function TimeLabel(t: nat): (r: string)
    ensures |r| >= 4 && r[|r| - 3] == ':'
    ensures t < 600 ==> |r| == 4 && r[0] == Digit(t / 60)
    ensures r[|r| - 2] == Digit(t % 60 / 10) && r[|r| - 1] == Digit(t % 10)
  {
    NatToString(t / 60) + ":" + TwoDigits(t % 60)
  }

  // ----- properties -----

  /** The series' x values are consecutive up to the current counter, and the axis shows exactly them. */
  predicate Consistent(p: Panel) {
    && p.timeCounter >= 0
    && |p.tempSeries| == |p.co2Series| == (if p.timeCounter < MaxDataPoints then p.timeCounter else MaxDataPoints)
    && (forall i :: 0 <= i < |p.tempSeries| ==> p.tempSeries[i].x == p.timeCounter - |p.tempSeries| + i)
    && (forall i :: 0 <= i < |p.co2Series| ==> p.co2Series[i].x == p.timeCounter - |p.co2Series| + i)
    && (p.timeCounter <= MaxDataPoints ==> p.axisLower == 0 && p.axisUpper == MaxDataPoints)
    && (p.timeCounter > MaxDataPoints ==> p.axisLower == p.timeCounter - MaxDataPoints && p.axisUpper == p.timeCounter - 1)
  }

  lemma InitialConsistent()
    ensures Consistent(InitialPanel)
  {
  }

  /** Every data tick keeps the series and the axis in step. */
  lemma DataTickConsistent(p: Panel, u: real, w: real)
    requires IsDraw(u) && IsDraw(w) && Consistent(p)
    ensures Consistent(DataTick(p, u, w))
  {
    if p.playing {
      var r := DataTick(p, u, w);
      var t := p.timeCounter;
      var a := p.tempSeries + [Sample(t, r.temp)];
      var b := p.co2Series + [Sample(t, r.co2)];
      forall i | 0 <= i < |r.tempSeries| ensures r.tempSeries[i].x == r.timeCounter - |r.tempSeries| + i {
        assert r.tempSeries[i] == a[|a| - |r.tempSeries| + i];
      }
      forall i | 0 <= i < |r.co2Series| ensures r.co2Series[i].x == r.timeCounter - |r.co2Series| + i {
        assert r.co2Series[i] == b[|b| - |r.co2Series| + i];
      }
    }
  }

  /** In a consistent panel every plotted point lies on the visible axis range. */
  lemma PointsOnAxis(p: Panel, i: int)
    requires Consistent(p) && 0 <= i < |p.tempSeries|
    ensures p.axisLower <= p.tempSeries[i].x <= p.axisUpper
  {
  }

  /** A playing tick moves the temperature by at most 1 degree and the CO2 by at most 15 ppm from an in-range value. */
  lemma WalkStepBounded(p: Panel, u: real, w: real)
    requires IsDraw(u) && IsDraw(w) && p.playing && |p.tempSeries| <= MaxDataPoints && |p.co2Series| <= MaxDataPoints
    requires 18.0 <= p.temp <= 32.0 && 350.0 <= p.co2 <= 700.0
    ensures var r := DataTick(p, u, w);
      -1.0 <= r.temp - p.temp <= 1.0 && -15.0 <= r.co2 - p.co2 <= 15.0
  {
  }

  function Advance(t: int, n: nat): int
    decreases n
  {
    if n == 0 then t else Advance(NextVideoTime(t), n - 1)
  }

  /** The video clock runs through 0..300 and so returns to any start after 301 ticks. */
  lemma {:induction false} ClockCycles(t: int, n: nat)
    requires 0 <= t <= VideoLength
    ensures Advance(t, n) == (t + n) % (VideoLength + 1)
    decreases n
  {
    if n > 0 {
      ClockCycles(NextVideoTime(t), n - 1);
      if t == VideoLength {
        WrapAround(n - 1);
      }
    }
  }

  /** One whole turn of the clock leaves the remainder as it was. */
  lemma WrapAround(k: nat)
    ensures (k + (VideoLength + 1)) % (VideoLength + 1) == k % (VideoLength + 1)
  {
  }

  lemma ClockPeriod(t: int)
    requires 0 <= t <= VideoLength
    ensures Advance(t, VideoLength + 1) == t
  {
    ClockCycles(t, VideoLength + 1);
  }

  /** Play and pause are idempotent, and toggling twice changes nothing. */
  lemma PlayPauseLaws(p: Panel)
    ensures Play(Play(p)) == Play(p) && Pause(Pause(p)) == Pause(p)
    ensures TogglePlayPause(TogglePlayPause(p)) == p
    ensures Pause(Play(p)) == p.(playing := false)
  {
  }

  /** The label set before the first tick, "2:00", is that of the initial 120 s, and "5:00" that of the end. */
  lemma LabelsAgree()
    ensures TimeLabel(120) == "2:00" && TimeLabel(300) == "5:00"
  {
  }
}
