/** The launch countdown, as the React component (src/components/Countdown.jsx)
    keeps it in state and as the static page script (script.js) writes it
    into the page.  Times are whole milliseconds; `distance` is the launch
    time minus the current time, which the caller reads from the clock. */
module Countdown {
  import opened Common
  import Json

  const Second: nat := 1000
  const Minute: nat := 60 * Second
  const Hour: nat := 60 * Minute
  const Day: nat := 24 * Hour

  datatype TimeLeft = TimeLeft(days: int, hours: int, minutes: int, seconds: int)

  /** The state before the first tick. */
  const Initial: TimeLeft := TimeLeft(0, 0, 0, 0)

  /** `a % b` in JavaScript: the remainder takes the sign of `a`. */
  function JsRem(a: int, b: int): (r: int)
    requires b > 0
    ensures a >= 0 ==> r == a % b
    ensures -b < r < b
  {
    if a >= 0 then a % b else -((-a) % b)
  }

  /** `Math.floor(x / b)` for a positive divisor: Dafny's division by a
      positive number already rounds down. */
  function FloorDiv(a: int, b: int): int
    requires b > 0
  {
    a / b
  }

  /** The four parts, each `Math.floor` of a JavaScript remainder divided by
      the unit. */
  function Parts(distance: int): TimeLeft {
    TimeLeft(FloorDiv(distance, Day),
             FloorDiv(JsRem(distance, Day), Hour),
             FloorDiv(JsRem(distance, Hour), Minute),
             FloorDiv(JsRem(distance, Minute), Second))
  }

  /** The parts of a non-negative distance are bounded like a clock. */
  lemma PartsBounds(distance: int)
    requires distance >= 0
    ensures var t := Parts(distance);
            t.days >= 0 && 0 <= t.hours < 24 && 0 <= t.minutes < 60 && 0 <= t.seconds < 60
  {
  }

  /** The parts add up to the distance less its milliseconds. */
  lemma PartsRecompose(distance: int)
    requires distance >= 0
    ensures var t := Parts(distance);
            Compose(t) == distance - distance % Second
  {
    var t := Parts(distance);
    var d1, r1 := distance / Day, distance % Day;
    var h, r2 := r1 / Hour, r1 % Hour;
    var m, r3 := r2 / Minute, r2 % Minute;
    var s, r4 := r3 / Second, r3 % Second;
    assert distance == d1 * Day + h * Hour + m * Minute + s * Second + r4;
    RemOfMultiple(distance, Day, Hour, d1);
    RemOfMultiple(distance, Hour, Minute, d1 * 24 + h);
    RemOfMultiple(distance, Minute, Second, d1 * 1440 + h * 60 + m);
    RemOfUnit(distance, d1 * 86400 + h * 3600 + m * 60 + s, r4);
  }

  lemma RemOfMultiple(distance: int, unit: nat, smaller: nat, q: int)
    requires unit > 0 && smaller > 0 && unit % smaller == 0 && distance >= 0
    requires distance == q * unit + distance % unit
    ensures distance % unit % smaller == distance % smaller
  {
    var k := unit / smaller;
    assert unit == k * smaller;
    var r := distance % unit;
    var a, b := r / smaller, r % smaller;
    assert distance == (q * k + a) * smaller + b by {
      assert q * unit == q * k * smaller;
      assert r == a * smaller + b;
    }
    RemUnique(distance, smaller, q * k + a, b);
  }

  lemma RemOfUnit(distance: int, q: int, r: int)
    requires distance == q * Second + r && 0 <= r < Second
    ensures distance % Second == r
  {
  }

  lemma RemUnique(n: int, d: nat, q: int, r: int)
    requires d > 0 && n == q * d + r && 0 <= r < d
    ensures n % d == r
  {
    var q', r' := n / d, n % d;
    assert n == q' * d + r';
    if q > q' {
      MulStep(q, q', d);
    } else if q < q' {
      MulStep(q', q, d);
    }
  }

  lemma MulStep(a: int, b: int, d: nat)
    requires a > b && d > 0
    ensures a * d >= b * d + d
  {
    var k := a - b - 1;
    assert k >= 0;
    assert a * d == b * d + d + k * d;
  }

  /** The milliseconds a time left stands for. */
  function Compose(t: TimeLeft): int {
    t.days * Day + t.hours * Hour + t.minutes * Minute + t.seconds * Second
  }

  /** Splitting inverts composing: a clock-bounded time left plus fewer than
      1000 milliseconds splits back into itself. */
  lemma SplitCompose(t: TimeLeft, ms: int)
    requires t.days >= 0 && 0 <= t.hours < 24 && 0 <= t.minutes < 60 && 0 <= t.seconds < 60
    requires 0 <= ms < Second
    ensures Parts(Compose(t) + ms) == t
  {
    var d := Compose(t) + ms;
    var inDay := t.hours * Hour + t.minutes * Minute + t.seconds * Second + ms;
    assert 0 <= inDay < Day;
    DivRemUnique(d, Day, t.days, inDay);
    var inHour := t.minutes * Minute + t.seconds * Second + ms;
    DivRemUnique(inDay, Hour, t.hours, inHour);
    RemUnique(d, Hour, t.days * 24 + t.hours, inHour);
    var inMinute := t.seconds * Second + ms;
    DivRemUnique(inHour, Minute, t.minutes, inMinute);
    RemUnique(d, Minute, t.days * 1440 + t.hours * 60 + t.minutes, inMinute);
    DivRemUnique(inMinute, Second, t.seconds, ms);
  }

  lemma DivRemUnique(n: int, d: nat, q: int, r: int)
    requires d > 0 && n == q * d + r && 0 <= r < d
    ensures n / d == q && n % d == r
  {
    RemUnique(n, d, q, r);
    assert n == (n / d) * d + n % d;
    assert (q - n / d) * d == 0;
  }

  // ------------------------------------------------------- React component

  /** One `updateCountdown` tick of the component: a positive distance
      replaces the state by its parts; otherwise the state is kept. */
  function Tick(state: TimeLeft, distance: int): (r: TimeLeft)
    ensures distance <= 0 ==> r == state
    ensures distance > 0 ==> Compose(r) == distance - distance % Second
    ensures distance > 0 ==> r.days >= 0 && 0 <= r.hours < 24 && 0 <= r.minutes < 60 && 0 <= r.seconds < 60
  {
    if distance > 0 then
      PartsBounds(distance);
      PartsRecompose(distance);
      Parts(distance)
    else state
  }

  /** After the launch every further tick keeps the last state shown; from
      the initial state that is all zeros. */
  lemma StaysAfterLaunch(state: TimeLeft, distances: seq<int>)
    requires forall k :: 0 <= k < |distances| ==> distances[k] <= 0
    ensures Ticks(state, distances) == state
    decreases |distances|
  {
    if distances != [] {
      StaysAfterLaunch(state, distances[1..]);
    }
  }

  /** The state after a run of ticks. */
  function Ticks(state: TimeLeft, distances: seq<int>): TimeLeft
    decreases |distances|
  {
    if distances == [] then state else Ticks(Tick(state, distances[0]), distances[1..])
  }

  // --------------------------------------------------------------- padding

  /** `s.padStart(2, '0')` */
  function PadStart(s: string): (r: string)
    ensures |s| >= 2 ==> r == s
    ensures |s| < 2 ==> |r| == 2 && r[2 - |s|..] == s && forall k :: 0 <= k < 2 - |s| ==> r[k] == '0'
  {
    if |s| >= 2 then s else if |s| == 1 then "0" + s else "00"
  }

  /** `formatNumber(n)`, `String(n).padStart(2, '0')`. */
  function FormatNumber(n: int): (r: string)
    ensures |r| >= 2
    ensures 0 <= n < 100 ==> |r| == 2
    ensures n >= 0 ==> forall k :: 0 <= k < |r| ==> Json.IsDigit(r[k])
  {
    PadStart(IntToString(n))
  }

  /** Padding keeps the number: the digits shown read back as `n`. */
  lemma FormatKeepsValue(n: nat)
    ensures Shows(FormatNumber(n), n)
  {
    Json.NatToStringShape(n);
    var s := NatToString(n);
    if |s| < 2 {
      LeadingZero(s);
    }
  }

  lemma {:induction false} LeadingZero(ds: string)
    requires forall k :: 0 <= k < |ds| ==> Json.IsDigit(ds[k])
    ensures Json.DigitsValue("0" + ds) == Json.DigitsValue(ds)
  {
    if ds != [] {
      var init := ds[..|ds| - 1];
      LeadingZero(init);
      assert ("0" + ds)[..|ds|] == "0" + init;
    }
  }

  // ----------------------------------------------------- static page script

  datatype Texts = Texts(days: string, hours: string, minutes: string, seconds: string)

  /** What the page shows after one `updateCountdown`: the padded parts,
      overwritten with "00" everywhere once the launch has passed. */
  function Display(distance: int): (r: Texts)
    ensures distance < 0 ==> r == Texts("00", "00", "00", "00")
    ensures distance >= 0 ==> r == Texts(FormatNumber(Parts(distance).days), FormatNumber(Parts(distance).hours),
                                         FormatNumber(Parts(distance).minutes), FormatNumber(Parts(distance).seconds))
  {
    if distance < 0 then Texts("00", "00", "00", "00")
    else
      var t := Parts(distance);
      Texts(FormatNumber(t.days), FormatNumber(t.hours), FormatNumber(t.minutes), FormatNumber(t.seconds))
  }

  /** Before the launch the shown hours, minutes and seconds are two
      digits each, and every shown field reads back as its clock part. */
  lemma DisplayReadsBack(distance: int)
    requires distance >= 0
    ensures var t, r := Parts(distance), Display(distance);
            |r.hours| == 2 && |r.minutes| == 2 && |r.seconds| == 2 && |r.days| >= 2 &&
            Shows(r.days, t.days) && Shows(r.hours, t.hours) &&
            Shows(r.minutes, t.minutes) && Shows(r.seconds, t.seconds)
  {
    var t := Parts(distance);
    PartsBounds(distance);
    FormatKeepsValue(t.days);
    FormatKeepsValue(t.hours);
    FormatKeepsValue(t.minutes);
    FormatKeepsValue(t.seconds);
  }

  /** The text is all digits and reads as `n`. */
  predicate Shows(text: string, n: int) {
    (forall k :: 0 <= k < |text| ==> Json.IsDigit(text[k])) && Json.DigitsValue(text) == n
  }

  /** The four counter elements of the static page. */
  class Counter {
    var days: string
    var hours: string
    var minutes: string
    var seconds: string

    constructor()
      ensures days == "" && hours == "" && minutes == "" && seconds == ""
    {
      days, hours, minutes, seconds := "", "", "", "";
    }

    /** `updateCountdown` of script.js: every element gets its padded part,
        and after the launch each is overwritten with "00". */
    method UpdateCountdown(distance: int)
      modifies this
      ensures Texts(days, hours, minutes, seconds) == Display(distance)
    {
      var t := TimeLeft(FloorDiv(distance, Day),
                        FloorDiv(JsRem(distance, Day), Hour),
                        FloorDiv(JsRem(distance, Hour), Minute),
                        FloorDiv(JsRem(distance, Minute), Second));
      days := FormatNumber(t.days);
      hours := FormatNumber(t.hours);
      minutes := FormatNumber(t.minutes);
      seconds := FormatNumber(t.seconds);
      if distance < 0 {
        days := "00";
        hours := "00";
        minutes := "00";
        seconds := "00";
      }
    }
  }
}
