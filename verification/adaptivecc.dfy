/**
 The adaptive-concurrency controller: one AIMD step over a stored limit that carries a lifetime, the
 band it stays in, and where repeated steps lead. Lua numbers are real numbers.
 */
module AdaptiveCc {
  import opened Wrappers

  // ── Registration ──

  // A field of the route table is absent or a number; a value of another type is read as absent here.
  datatype Raw = Raw(
    minFrac: Option<real>, pressure: Option<real>, slack: Option<real>, abs: Option<real>,
    min: Option<real>, init: Option<real>, initFrac: Option<real>)

  datatype Options = Options(
    minFrac: real, pressure: real, slack: real, abs: real,
    min: Option<real>, init: Option<real>, initFrac: Option<real>)
  {
    predicate Registered() {
      && 0.0 < minFrac <= 1.0 && 0.0 < slack < pressure <= 1.0 && abs >= 0.0
      && (min.Some? ==> min.value >= 1.0) && (init.Some? ==> init.value >= 1.0)
      && (initFrac.Some? ==> 0.0 < initFrac.value <= 1.0)
    }

    // The source does not check the gains; they are what makes the step AIMD at all.
    predicate Mid() {
      slack < (pressure + slack) / 2.0 < pressure
    }
  }

  function MinOf(a: real, b: real): real {
    if a <= b then a else b
  }

  function MaxOf(a: real, b: real): real {
    if a >= b then a else b
  }

  function Floor(x: real): real {
    x.Floor as real
  }

  predicate Fraction(x: Option<real>) {
    x.Some? && 0.0 < x.value <= 1.0
  }

  /**
   The range checks of registration: whatever the route says, what the controller runs with is legal,
   and a legal value is kept.
   */
  method Register(raw: Raw, defaults: Options) returns (o: Options)
    requires defaults.Registered()
    ensures o.Registered() && o.Mid()
    ensures o.minFrac == if Fraction(raw.minFrac) then raw.minFrac.value else defaults.minFrac
    ensures o.pressure == if Fraction(raw.pressure) then raw.pressure.value else defaults.pressure
    ensures var wanted := if raw.slack.Some? then raw.slack.value else defaults.slack;
      o.slack == if 0.0 < wanted < o.pressure then wanted else MinOf(defaults.slack, o.pressure * 0.8)
    ensures o.abs == if raw.abs.Some? && raw.abs.value >= 0.0 then raw.abs.value else defaults.abs
    ensures o.min == if raw.min.Some? && raw.min.value >= 1.0 then Some(Floor(raw.min.value)) else None
    ensures o.init == if raw.init.Some? && raw.init.value >= 1.0 then Some(Floor(raw.init.value)) else None
    ensures o.initFrac == if Fraction(raw.initFrac) then raw.initFrac else None
  {
    var minFrac, pressure, slack, abs := defaults.minFrac, defaults.pressure, defaults.slack, defaults.abs;
    var min, init, initFrac := raw.min, raw.init, raw.initFrac;
    if Fraction(raw.minFrac) {
      minFrac := raw.minFrac.value;
    }
    if Fraction(raw.pressure) {
      pressure := raw.pressure.value;
    }
    slack := if raw.slack.Some? then raw.slack.value else slack;
    if slack <= 0.0 || slack >= pressure {
      slack := MinOf(defaults.slack, pressure * 0.8);
    }
    if raw.abs.Some? && raw.abs.value >= 0.0 {
      abs := raw.abs.value;
    }
    if min.Some? {
      min := if min.value < 1.0 then None else Some(Floor(min.value));
    }
    if init.Some? {
      init := if init.value < 1.0 then None else Some(Floor(init.value));
    }
    if initFrac.Some? && (initFrac.value <= 0.0 || initFrac.value > 1.0) {
      initFrac := None;
    }
    o := Options(minFrac, pressure, slack, abs, min, init, initFrac);
  }

  // ── The band ──

  // `r` is the largest whole number up to `x`, or 1 where that is less.
  predicate WholePart(r: real, x: real) {
    r == r.Floor as real && (x >= 1.0 ==> r <= x < r + 1.0) && (x < 1.0 ==> r == 1.0)
  }

  function WholeOrOne(x: real): (r: real)
    ensures r >= 1.0 && WholePart(r, x)
  {
    MaxOf(1.0, Floor(x))
  }

  function PartOf(x: real, fraction: real): real {
    x * fraction
  }

  lemma PartFits(x: real, fraction: real)
    requires x >= 1.0 && 0.0 < fraction <= 1.0
    ensures WholeOrOne(PartOf(x, fraction)) <= x
  {
    Scales(fraction, 1.0, x);
    assert PartOf(x, fraction) <= x;
    hide WholeOrOne, PartOf;
  }

  function DeriveMin(o: Options, maxcc: real): (r: real)
    requires o.Registered()
    ensures r <= maxcc
    ensures maxcc > 0.0 ==> r > 0.0
    ensures maxcc >= 1.0 ==> r >= 1.0
    // A configured floor is used as far as it fits; else the whole part of the fraction, at least 1.
    ensures o.min.Some? && o.min.value <= maxcc ==> r == o.min.value
    ensures o.min.Some? && o.min.value > maxcc ==> r == maxcc
    ensures o.min.None? && maxcc >= 1.0 ==> WholePart(r, PartOf(maxcc, o.minFrac))
    ensures o.min.None? && maxcc < 1.0 ==> r == maxcc
  {
    assert maxcc >= 1.0 ==> WholeOrOne(PartOf(maxcc, o.minFrac)) <= maxcc by {
      if maxcc >= 1.0 {
        PartFits(maxcc, o.minFrac);
      }
    }
    var mn := if o.min.Some? then o.min.value else WholeOrOne(PartOf(maxcc, o.minFrac));
    if mn > maxcc then maxcc else mn
  }

  function DeriveInit(o: Options, maxcc: real, mincc: real): (r: real)
    requires o.Registered() && mincc <= maxcc
    ensures mincc <= r <= maxcc
    // A configured start point is used as far as it fits, then a configured fraction, else the floor.
    ensures o.init.Some? && mincc <= o.init.value <= maxcc ==> r == o.init.value
    ensures o.init.Some? && o.init.value < mincc ==> r == mincc
    ensures o.init.Some? && o.init.value > maxcc ==> r == maxcc
    ensures o.init.None? && o.initFrac.Some? && mincc < r < maxcc ==> WholePart(r, PartOf(maxcc, o.initFrac.value))
    ensures o.init.None? && o.initFrac.Some? && r == mincc < maxcc ==>
      PartOf(maxcc, o.initFrac.value) < mincc + 1.0 || mincc <= 1.0
    ensures o.init.None? && o.initFrac.Some? && r == maxcc > mincc ==>
      maxcc <= MaxOf(1.0, PartOf(maxcc, o.initFrac.value))
    ensures o.init.None? && o.initFrac.None? ==> r == mincc
  {
    var it :=
      if o.init.Some? then o.init
      else if o.initFrac.Some? then Some(WholeOrOne(PartOf(maxcc, o.initFrac.value)))
      else None;
    var floor := if it.None? || it.value < mincc then mincc else it.value;
    if floor > maxcc then maxcc else floor
  }

  datatype Band = Band(min: real, init: real, max: real)
  {
    predicate Valid() {
      0.0 < min <= init <= max
    }

    predicate Holds(c: real) {
      min <= c <= max
    }
  }

  function BandOf(o: Options, maxcc: real): (b: Band)
    requires o.Registered() && maxcc > 0.0
    ensures b.Valid() && b.max == maxcc
  {
    var mincc := DeriveMin(o, maxcc);
    Band(mincc, DeriveInit(o, maxcc, mincc), maxcc)
  }

  // ── One step ──

  datatype Gains = Gains(inc: real, dec: real)
  {
    // Not checked at registration; the defaults are 1.02 and 0.97.
    predicate Valid() {
      inc > 1.0 && 0.0 < dec < 1.0
    }

    function Up(c: real): real {
      c * inc
    }

    function Down(c: real): real {
      c * dec
    }
  }

  // What a tick sees: is there a threshold, is it exceeded, were requests rejected, how many run.
  datatype Sight = Sight(hasThreshold: bool, over: bool, rejected: bool, conc: real, hold: bool)
  {
    predicate Quiet() {
      hasThreshold && !over && !rejected && conc >= 0.0
    }
  }

  function Desired(o: Options, conc: real): real
    requires o.Registered()
  {
    MaxOf(conc / ((o.pressure + o.slack) / 2.0), conc + o.abs)
  }

  predicate AtPressure(o: Options, conc: real, c: real) {
    conc >= c * o.pressure || c - conc < o.abs
  }

  predicate AtSlack(o: Options, conc: real, c: real) {
    conc < c * o.slack && c - conc > o.abs
  }

  function Clamped(b: Band, c: real): real {
    MaxOf(b.min, MinOf(b.max, c))
  }

  // The healthy branch: `up` and `down` are the limit times the two gains, `pressed` and `slack` the
  // two gates at the limit, `goal` the limit that fits the concurrency.
  function Tracked(b: Band, goal: real, up: real, down: real, pressed: bool, slack: bool, c: real): real {
    var moved :=
      if pressed then MinOf(up, goal)
      else if slack && c > b.init then MaxOf(MaxOf(down, goal), b.init)
      else c;
    Clamped(b, if c < b.init then MaxOf(moved, MinOf(up, b.init)) else moved)
  }

  function Next(o: Options, g: Gains, b: Band, s: Sight, c: real): real
    requires o.Registered()
  {
    if !s.hasThreshold then Clamped(b, c)
    else if s.over then Clamped(b, g.Down(c))
    else if s.rejected then Clamped(b, g.Up(c))
    else Tracked(b, Desired(o, s.conc), g.Up(c), g.Down(c),
                 AtPressure(o, s.conc, c), AtSlack(o, s.conc, c) && !s.hold, c)
  }

  // ── The level a quiet pool is driven to ──

  lemma Divides(a: real, b: real, x: real)
    requires b > 0.0
    ensures x >= a / b <==> x * b >= a
  {
    var q := a / b;
    assert q * b == a;
    if x >= q {
      Scales(q, x, b);
    } else {
      Scales(x, q, b);
    }
  }

  /** The goal is the least limit whose use is at most midway between the bands and that leaves the headroom. */
  lemma DesiredIsLeast(o: Options, conc: real, x: real)
    requires o.Registered()
    ensures x >= Desired(o, conc) <==> x * (o.pressure + o.slack) >= 2.0 * conc && x - conc >= o.abs
  {
    var mid := (o.pressure + o.slack) / 2.0;
    Divides(conc, mid, x);
    assert x * (o.pressure + o.slack) == 2.0 * (x * mid);
  }

  // Pressure acts below it only, slack above it only.
  function Level(o: Options, b: Band, conc: real): real
    requires o.Registered()
  {
    MaxOf(Desired(o, conc), b.init)
  }

  lemma Scales(a: real, b: real, y: real)
    requires a <= b && y >= 0.0
    ensures a * y <= b * y
    ensures a < b && y > 0.0 ==> a * y < b * y
  {
  }

  lemma Quotient(a: real, b: real) returns (q: real)
    requires a >= 0.0 && b > 0.0
    ensures q == a / b && q * b == a && q >= 0.0
  {
    q := a / b;
    if q < 0.0 {
      Scales(q, 0.0, b);
    }
  }

  lemma DivideThrough(conc: real, m: real, c: real, p: real)
    requires conc >= 0.0 && 0.0 < m && c > 0.0
    ensures conc >= c * p && m < p ==> c < conc / m
    ensures 0.0 < p < m && conc < c * p ==> conc / m < c
  {
    assert conc / m * m == conc;
    if conc >= c * p && m < p {
      Scales(m, p, c);
      if c >= conc / m {
        Scales(conc / m, c, m);
        assert false;
      }
    }
    if 0.0 < p < m && conc < c * p {
      Scales(p, m, c);
      if conc / m >= c {
        Scales(c, conc / m, m);
        assert false;
      }
    }
  }

  /** The dead band: at pressure the limit is under the level, at slack over it; never both. */
  lemma BandsApart(o: Options, b: Band, conc: real, c: real)
    requires o.Registered() && conc >= 0.0 && c > 0.0
    ensures AtPressure(o, conc, c) ==> c < Desired(o, conc)
    ensures AtSlack(o, conc, c) ==> c > Desired(o, conc)
    ensures !(AtPressure(o, conc, c) && AtSlack(o, conc, c))
  {
    var mid := (o.pressure + o.slack) / 2.0;
    DivideThrough(conc, mid, c, o.pressure);
    DivideThrough(conc, mid, c, o.slack);
  }

  lemma Positive(a: real, b: real, product: real)
    requires a > 0.0 && b > 0.0 && product == a * b
    ensures product > 0.0
  {
  }

  lemma UpGrows(c: real, inc: real, up: real)
    requires c > 0.0 && inc > 1.0 && up == c * inc
    ensures c < up
  {
    Positive(c, inc - 1.0, up - c);
  }

  lemma DownShrinks(c: real, dec: real, down: real)
    requires c > 0.0 && 0.0 < dec < 1.0 && down == c * dec
    ensures 0.0 < down < c
  {
    Positive(c, dec, down);
    Positive(c, 1.0 - dec, c - down);
  }

  lemma Scaled(c: real, g: Gains)
    requires c > 0.0 && g.Valid()
    ensures 0.0 < g.Down(c) < c < g.Up(c)
  {
    UpGrows(c, g.inc, g.Up(c));
    DownShrinks(c, g.dec, g.Down(c));
  }

  lemma TrackedMoves(b: Band, goal: real, up: real, down: real, pressed: bool, slack: bool, c: real)
    requires b.Valid() && b.Holds(c) && down < c < up && (pressed ==> c < goal) && (slack ==> c > goal)
    ensures c <= MaxOf(goal, b.init) ==> c <= Tracked(b, goal, up, down, pressed, slack, c) <= MaxOf(goal, b.init)
    ensures c >= MaxOf(goal, b.init) ==> MaxOf(goal, b.init) <= Tracked(b, goal, up, down, pressed, slack, c) <= c
  {
  }

  /** Below the level a quiet step never lowers the limit and never passes the level; dually above. */
  lemma MovesTowardsLevel(o: Options, g: Gains, b: Band, s: Sight, c: real)
    requires o.Registered() && g.Valid() && b.Valid() && b.Holds(c) && s.Quiet()
    ensures c <= Level(o, b, s.conc) ==> c <= Next(o, g, b, s, c) <= Level(o, b, s.conc)
    ensures c >= Level(o, b, s.conc) ==> Level(o, b, s.conc) <= Next(o, g, b, s, c) <= c
    ensures b.Holds(Next(o, g, b, s, c))
  {
    BandsApart(o, b, s.conc, c);
    Scaled(c, g);
    TrackedMoves(b, Desired(o, s.conc), g.Up(c), g.Down(c),
                 AtPressure(o, s.conc, c), AtSlack(o, s.conc, c) && !s.hold, c);
  }

  /** Pressure never lowers, slack never raises, and neither step makes the other possible. */
  lemma NoOscillation(o: Options, g: Gains, b: Band, s: Sight, c: real)
    requires o.Registered() && g.Valid() && b.Valid() && b.Holds(c) && s.Quiet()
    ensures var d := Next(o, g, b, s, c);
      && (AtPressure(o, s.conc, c) ==> c <= d && !(AtSlack(o, s.conc, d) && d > b.init))
      && (AtSlack(o, s.conc, c) && c > b.init ==> d <= c && !AtPressure(o, s.conc, d))
  {
    BandsApart(o, b, s.conc, c);
    MovesTowardsLevel(o, g, b, s, c);
    BandsApart(o, b, s.conc, Next(o, g, b, s, c));
  }

  lemma PressureBelow(o: Options, conc: real, c: real, d: real)
    requires o.Registered() && c > 0.0
    ensures c <= d && AtPressure(o, conc, d) ==> AtPressure(o, conc, c)
  {
    if c <= d {
      Scales(c, d, o.pressure);
    }
  }

  lemma TrackedOnce(b: Band, goal: real, up: real, down: real, pressed: bool, slack: bool, c: real,
                    up': real, down': real, pressed': bool, slack': bool)
    requires b.Valid() && b.Holds(c) && down < c < up && (pressed ==> c < goal) && (slack ==> c > goal)
    requires var d := Tracked(b, goal, up, down, pressed, slack, c);
      && down' < d < up' && (pressed' ==> d < goal) && (slack' ==> d > goal)
      && (c <= d && pressed' ==> pressed) && (c == d ==> pressed' == pressed && slack' == slack && up' == up && down' == down)
    ensures var d := Tracked(b, goal, up, down, pressed, slack, c);
      || Tracked(b, goal, up', down', pressed', slack', d) == d
      || d == if c <= MaxOf(goal, b.init) then up else down
  {
  }

  // One quiet step is a full factor of the gain, or it is the last one.
  lemma FullStepOrLast(o: Options, g: Gains, b: Band, s: Sight, c: real)
    requires o.Registered() && g.Valid() && b.Valid() && b.Holds(c) && s.Quiet()
    ensures var d := Next(o, g, b, s, c);
      Next(o, g, b, s, d) == d || d == if c <= Level(o, b, s.conc) then g.Up(c) else g.Down(c)
  {
    var d := Next(o, g, b, s, c);
    MovesTowardsLevel(o, g, b, s, c);
    BandsApart(o, b, s.conc, c);
    BandsApart(o, b, s.conc, d);
    Scaled(c, g);
    Scaled(d, g);
    PressureBelow(o, s.conc, c, d);
    TrackedOnce(b, Desired(o, s.conc), g.Up(c), g.Down(c),
                AtPressure(o, s.conc, c), AtSlack(o, s.conc, c) && !s.hold, c,
                g.Up(d), g.Down(d), AtPressure(o, s.conc, d), AtSlack(o, s.conc, d) && !s.hold);
  }

  // ── Repeated steps ──

  function Iterate(o: Options, g: Gains, b: Band, s: Sight, c: real, n: nat): real
    requires o.Registered()
  {
    if n == 0 then c else Next(o, g, b, s, Iterate(o, g, b, s, c, n - 1))
  }

  function Pow(x: real, n: nat): real {
    if n == 0 then 1.0 else x * Pow(x, n - 1)
  }

  /** Bernoulli's inequality. */
  lemma {:induction false} PowGrows(x: real, n: nat)
    requires x > 1.0
    ensures Pow(x, n) >= 1.0 + n as real * (x - 1.0)
  {
    if n > 0 {
      PowGrows(x, n - 1);
      var m, y, p := (n - 1) as real, x - 1.0, Pow(x, n - 1);
      Scales(0.0, m, y);
      Scales(1.0, p, y);
      assert x * p == p + p * y;
      assert (m + 1.0) * y == m * y + y;
    }
  }

  lemma PowExceeds(x: real, bound: real) returns (n: nat)
    requires x > 1.0 && bound >= 0.0
    ensures Pow(x, n) > bound
  {
    var y := x - 1.0;
    var q := Quotient(bound, y);
    n := q.Floor + 1;
    PowGrows(x, n);
    Scales(q, n as real, y);
  }

  /** With constant concurrency the limit moves in one direction only, and stays in the band. */
  lemma {:induction false} OneDirection(o: Options, g: Gains, b: Band, s: Sight, c: real, n: nat)
    requires o.Registered() && g.Valid() && b.Valid() && b.Holds(c) && s.Quiet()
    ensures b.Holds(Iterate(o, g, b, s, c, n))
    ensures c <= Level(o, b, s.conc) ==>
      Iterate(o, g, b, s, c, n) <= Iterate(o, g, b, s, c, n + 1) <= Level(o, b, s.conc)
    ensures c >= Level(o, b, s.conc) ==>
      Level(o, b, s.conc) <= Iterate(o, g, b, s, c, n + 1) <= Iterate(o, g, b, s, c, n)
  {
    if n > 0 {
      OneDirection(o, g, b, s, c, n - 1);
    }
    var d := Iterate(o, g, b, s, c, n);
    assert Iterate(o, g, b, s, c, n + 1) == Next(o, g, b, s, d);
    MovesTowardsLevel(o, g, b, s, d);
  }

  function Ups(g: Gains, c: real, n: nat): real {
    if n == 0 then c else g.Up(Ups(g, c, n - 1))
  }

  function Downs(g: Gains, c: real, n: nat): real {
    if n == 0 then c else g.Down(Downs(g, c, n - 1))
  }

  lemma {:induction false} UpsIsPow(g: Gains, c: real, n: nat)
    ensures Ups(g, c, n) == c * Pow(g.inc, n)
  {
    if n > 0 {
      UpsIsPow(g, c, n - 1);
      var p := Pow(g.inc, n - 1);
      assert (c * p) * g.inc == c * (g.inc * p);
    }
  }

  lemma {:induction false} DownsIsPow(g: Gains, c: real, n: nat, inv: real)
    requires inv * g.dec == 1.0
    ensures Downs(g, c, n) * Pow(inv, n) == c
  {
    if n > 0 {
      DownsIsPow(g, c, n - 1, inv);
      var p, d := Pow(inv, n - 1), Downs(g, c, n - 1);
      assert (d * g.dec) * (inv * p) == (inv * g.dec) * (d * p);
    }
  }

  // Until it stops, the limit is the start times a power of the gain.
  lemma {:induction false} FullStepsSoFar(o: Options, g: Gains, b: Band, s: Sight, c: real, n: nat)
    requires o.Registered() && g.Valid() && b.Valid() && b.Holds(c) && s.Quiet()
    ensures Iterate(o, g, b, s, c, n + 1) == Iterate(o, g, b, s, c, n)
         || (c < Level(o, b, s.conc) && Iterate(o, g, b, s, c, n) == Ups(g, c, n))
         || (c > Level(o, b, s.conc) && Iterate(o, g, b, s, c, n) == Downs(g, c, n))
  {
    OneDirection(o, g, b, s, c, n);
    if n == 0 {
      assert Iterate(o, g, b, s, c, 1) == Next(o, g, b, s, c);
      MovesTowardsLevel(o, g, b, s, c);
    } else {
      FullStepsSoFar(o, g, b, s, c, n - 1);
      OneDirection(o, g, b, s, c, n - 1);
      FullStepOrLast(o, g, b, s, Iterate(o, g, b, s, c, n - 1));
    }
  }

  lemma {:induction false} StaysFixed(o: Options, g: Gains, b: Band, s: Sight, c: real, n: nat, k: nat)
    requires o.Registered() && Iterate(o, g, b, s, c, n + 1) == Iterate(o, g, b, s, c, n) && k >= n
    ensures Iterate(o, g, b, s, c, k) == Iterate(o, g, b, s, c, n)
  {
    if k > n {
      StaysFixed(o, g, b, s, c, n, k - 1);
    }
  }

  lemma TooFar(a: real, b: real, q: real, p: real)
    requires 0.0 < a && q * a == b && q >= 0.0 && p > q
    ensures a * p > b && p > 0.0
  {
    Scales(q, p, a);
  }

  // How many full steps up, or down, would leave the band.
  lemma EnoughUps(g: Gains, b: Band, c: real) returns (n: nat)
    requires g.Valid() && b.Valid() && b.Holds(c)
    ensures Ups(g, c, n) > b.max
  {
    var top := Quotient(b.max, c);
    n := PowExceeds(g.inc, top);
    UpsIsPow(g, c, n);
    TooFar(c, b.max, top, Pow(g.inc, n));
  }

  lemma Reciprocal(x: real) returns (inv: real)
    requires 0.0 < x < 1.0
    ensures inv * x == 1.0 && inv > 1.0
  {
    inv := Quotient(1.0, x);
    if inv <= 1.0 {
      Scales(inv, 1.0, x);
      assert false;
    }
  }

  lemma BelowBottom(d: real, min: real, c: real, p: real)
    requires d * p == c && min * p > c && p > 0.0
    ensures d < min
  {
    if d >= min {
      Scales(min, d, p);
      assert false;
    }
  }

  lemma EnoughDowns(g: Gains, b: Band, c: real) returns (n: nat)
    requires g.Valid() && b.Valid() && b.Holds(c)
    ensures Downs(g, c, n) < b.min
  {
    var inv := Reciprocal(g.dec);
    var bottom := Quotient(c, b.min);
    n := PowExceeds(inv, bottom);
    DownsIsPow(g, c, n, inv);
    TooFar(b.min, c, bottom, Pow(inv, n));
    BelowBottom(Downs(g, c, n), b.min, c, Pow(inv, n));
  }

  /** With constant concurrency, no rejection and a healthy signal the limit comes to rest. */
  lemma Converges(o: Options, g: Gains, b: Band, s: Sight, c: real) returns (n: nat)
    requires o.Registered() && g.Valid() && b.Valid() && b.Holds(c) && s.Quiet()
    ensures forall k: nat :: k >= n ==> Iterate(o, g, b, s, c, k) == Iterate(o, g, b, s, c, n)
  {
    if c < Level(o, b, s.conc) {
      n := EnoughUps(g, b, c);
    } else {
      n := EnoughDowns(g, b, c);
    }
    FullStepsSoFar(o, g, b, s, c, n);
    OneDirection(o, g, b, s, c, n);
    forall k: nat | k >= n
      ensures Iterate(o, g, b, s, c, k) == Iterate(o, g, b, s, c, n)
    {
      StaysFixed(o, g, b, s, c, n, k);
    }
  }

  /** Where it rests, exactly: at or above the start point, pressed only at the top, slack only at the start or held. */
  lemma RestsExactlyWhen(o: Options, g: Gains, b: Band, s: Sight, c: real)
    requires o.Registered() && g.Valid() && b.Valid() && b.Holds(c) && s.Quiet()
    ensures Next(o, g, b, s, c) == c
       <==> && c >= b.init && (s.conc >= c * o.pressure || c < s.conc + o.abs ==> c == b.max)
            && (s.conc < c * o.slack && c > s.conc + o.abs ==> c == b.init || s.hold)
  {
    BandsApart(o, b, s.conc, c);
    Scaled(c, g);
  }

  // ── The stored limit ──

  datatype Expiry = Never | At(time: real)

  datatype Entry = Entry(value: real, expires: Expiry)
  {
    // A dictionary read finds a value up to, not including, the moment it expires.
    predicate Live(now: real) {
      expires.Never? || now < expires.time
    }

    // Zero for a value that never expires; zero or less for one that has expired and was not evicted.
    function Ttl(now: real): real {
      if expires.Never? then 0.0 else expires.time - now
    }
  }

  type Cell = Option<Entry>

  predicate Readable(cell: Cell, now: real) {
    cell.Some? && cell.value.Live(now)
  }

  function ValueOr(cell: Cell, now: real, start: real): real {
    if Readable(cell, now) then cell.value.value else start
  }

  // One timer tick: the time, whether the speed average is alive, the static maximum, and the sight.
  datatype Tick = Tick(now: real, alive: bool, maxcc: real, sight: Sight)
  {
    predicate Writes() {
      alive && maxcc > 0.0
    }
  }

  // What a tick without a signal does to the lifetime, and to nothing else.
  function Aged(cell: Cell, ttl: real, t: Tick): Cell {
    if !Readable(cell, t.now) then cell
    else if t.sight.hold then Some(cell.value.(expires := Never))
    else if cell.value.expires.Never? then Some(cell.value.(expires := At(t.now + ttl)))
    else cell
  }

  function Written(o: Options, g: Gains, ttl: real, cell: Cell, t: Tick): Entry
    requires o.Registered() && t.maxcc > 0.0
  {
    var b := BandOf(o, t.maxcc);
    Entry(Next(o, g, b, t.sight, ValueOr(cell, t.now, b.init)), if t.sight.hold then Never else At(t.now + ttl))
  }

  function Stepped(o: Options, g: Gains, ttl: real, cell: Cell, t: Tick): Cell
    requires o.Registered()
  {
    if !t.alive then Aged(cell, ttl, t)
    else if t.maxcc <= 0.0 then cell
    else Some(Written(o, g, ttl, cell, t))
  }

  class Pool {
    var limit: Cell    // dictionary key "adaptive_cc"
    var rej: nat       // dictionary key "rej": requests turned away since the last tick that read it

    constructor ()
      ensures limit == None && rej == 0
    {
      limit, rej := None, 0;
    }

    /** The tick without a signal: the switch of `hold` reaches the stored value's lifetime. */
    method Age(hold: bool, now: real, ttl: real, ghost t: Tick)
      requires t.now == now && t.sight.hold == hold
      modifies this`limit
      ensures limit == Aged(old(limit), ttl, t)
    {
      if Readable(limit, now) {
        var left := limit.value.Ttl(now);
        if hold {
          if left > 0.0 {
            limit := Some(limit.value.(expires := Never));
          }
        } else if left == 0.0 {
          limit := Some(limit.value.(expires := At(now + ttl)));
        }
      }
    }

    /** One tick of the controller. */
    method StepOne(o: Options, g: Gains, ttl: real, now: real, alive: bool, maxcc: real,
                   hasThreshold: bool, over: bool, conc: real, hold: bool)
      requires o.Registered()
      modifies this
      ensures limit == Stepped(o, g, ttl, old(limit),
                               Tick(now, alive, maxcc, Sight(hasThreshold, over, old(rej) > 0, conc, hold)))
      ensures rej == if alive && maxcc > 0.0 then 0 else old(rej)
    {
      if !alive {
        Age(hold, now, ttl, Tick(now, alive, maxcc, Sight(hasThreshold, over, rej > 0, conc, hold)));
        return;
      }
      if maxcc <= 0.0 {
        return;
      }
      var b := BandOf(o, maxcc);
      var cur := ValueOr(limit, now, b.init);
      var rejected := rej > 0;
      rej := 0;
      if hasThreshold {
        var desired := Desired(o, conc);
        if over {
          cur := g.Down(cur);
        } else if rejected {
          cur := g.Up(cur);
        } else {
          var prev := cur;
          if AtPressure(o, conc, prev) {
            cur := MinOf(g.Up(prev), desired);
          } else if AtSlack(o, conc, prev) && prev > b.init && !hold {
            cur := MaxOf(MaxOf(g.Down(prev), desired), b.init);
          }
          if prev < b.init {
            cur := MaxOf(cur, MinOf(g.Up(prev), b.init));
          }
        }
      }
      limit := Some(Entry(Clamped(b, cur), if hold then Never else At(now + ttl)));
    }
  }

  // ── Runs of ticks ──

  function Ran(o: Options, g: Gains, ttl: real, cell: Cell, ticks: seq<Tick>): Cell
    requires o.Registered()
  {
    if ticks == [] then cell
    else Stepped(o, g, ttl, Ran(o, g, ttl, cell, ticks[..|ticks| - 1]), ticks[|ticks| - 1])
  }

  predicate InOrder(ticks: seq<Tick>, from: real) {
    && (forall i :: 0 <= i < |ticks| ==> from <= ticks[i].now)
    && (forall i, j :: 0 <= i < j < |ticks| ==> ticks[i].now <= ticks[j].now)
  }

  predicate Within(cell: Cell, b: Band) {
    cell.Some? ==> b.Holds(cell.value.value)
  }

  // The last tick that writes, if any does.
  function LastWriter(ticks: seq<Tick>): (w: Option<nat>)
    ensures w.Some? ==> w.value < |ticks| && ticks[w.value].Writes()
    ensures forall i :: (if w.Some? then w.value + 1 else 0) <= i < |ticks| ==> !ticks[i].Writes()
  {
    if ticks == [] then None
    else if ticks[|ticks| - 1].Writes() then Some(|ticks| - 1)
    else LastWriter(ticks[..|ticks| - 1])
  }

  predicate SameValue(a: Cell, b: Cell) {
    (a.Some? <==> b.Some?) && (a.Some? ==> a.value.value == b.value.value)
  }

  predicate InBand(o: Options, maxcc: real, cell: Cell)
    requires o.Registered() && maxcc > 0.0
  {
    cell.Some? && BandOf(o, maxcc).Holds(cell.value.value)
  }

  lemma SteppedValue(o: Options, g: Gains, ttl: real, cell: Cell, t: Tick)
    requires o.Registered()
    ensures if t.Writes() then InBand(o, t.maxcc, Stepped(o, g, ttl, cell, t))
            else SameValue(cell, Stepped(o, g, ttl, cell, t))
  {
  }

  /**
   Whatever the ticks see and however the static maximum moves between them, the stored limit lies in the
   band of the last tick that wrote it; while none has, it is the value the run began with.
   */
  lemma {:induction false} InBandOfLastWriter(o: Options, g: Gains, ttl: real, cell: Cell, ticks: seq<Tick>)
    requires o.Registered()
    ensures var w, c := LastWriter(ticks), Ran(o, g, ttl, cell, ticks);
      if w.Some? then InBand(o, ticks[w.value].maxcc, c) else SameValue(cell, c)
  {
    hide Stepped;
    hide BandOf;
    if ticks != [] {
      var n := |ticks| - 1;
      InBandOfLastWriter(o, g, ttl, cell, ticks[..n]);
      SteppedValue(o, g, ttl, Ran(o, g, ttl, cell, ticks[..n]), ticks[n]);
    }
  }

  /** With a static maximum that stays as it is, the stored limit stays in the band of the route. */
  lemma {:induction false} StaysInBand(o: Options, g: Gains, ttl: real, cell: Cell, ticks: seq<Tick>, maxcc: real)
    requires o.Registered() && maxcc > 0.0 && Within(cell, BandOf(o, maxcc))
    requires forall i :: 0 <= i < |ticks| ==> ticks[i].maxcc == maxcc
    ensures Within(Ran(o, g, ttl, cell, ticks), BandOf(o, maxcc))
  {
    if ticks != [] {
      StaysInBand(o, g, ttl, cell, ticks[..|ticks| - 1], maxcc);
    }
  }

  /** Which way each branch goes: overload shrinks down to the floor, rejections grow up to the top. */
  lemma BranchDirections(o: Options, g: Gains, b: Band, s: Sight, c: real)
    requires o.Registered() && g.Valid() && b.Valid() && b.Holds(c)
    ensures !s.hasThreshold ==> Next(o, g, b, s, c) == c
    ensures s.hasThreshold && s.over ==>
      Next(o, g, b, s, c) <= c && (Next(o, g, b, s, c) == c <==> c == b.min)
    ensures s.hasThreshold && !s.over && s.rejected ==>
      Next(o, g, b, s, c) >= c && (Next(o, g, b, s, c) == c <==> c == b.max)
  {
    Scaled(c, g);
  }

  // ── How far a step goes ──

  /** A rejection grows the limit by exactly the gain, up to the top; it never jumps. */
  lemma RejectedStep(o: Options, g: Gains, b: Band, s: Sight, c: real)
    requires o.Registered() && g.Valid() && b.Valid() && b.Holds(c)
    requires s.hasThreshold && !s.over && s.rejected
    ensures Next(o, g, b, s, c) == MinOf(b.max, c * g.inc)
  {
    Scaled(c, g);
  }

  /** An overload shrinks it by exactly the gain, down to the floor. */
  lemma OverloadStep(o: Options, g: Gains, b: Band, s: Sight, c: real)
    requires o.Registered() && g.Valid() && b.Valid() && b.Holds(c)
    requires s.hasThreshold && s.over
    ensures Next(o, g, b, s, c) == MaxOf(b.min, c * g.dec)
  {
    Scaled(c, g);
  }

  // No step of any kind goes further than one gain.
  lemma OneGainAtMost(o: Options, g: Gains, b: Band, s: Sight, c: real)
    requires o.Registered() && g.Valid() && b.Valid() && b.Holds(c) && s.conc >= 0.0
    ensures g.Down(c) <= Next(o, g, b, s, c) <= g.Up(c) && b.Holds(Next(o, g, b, s, c))
  {
    Scaled(c, g);
    BandsApart(o, b, s.conc, c);
  }

  lemma {:induction false} DownsArePow(g: Gains, c: real, n: nat)
    ensures Downs(g, c, n) == c * Pow(g.dec, n)
  {
    if n > 0 {
      DownsArePow(g, c, n - 1);
      var p := Pow(g.dec, n - 1);
      assert (c * p) * g.dec == c * (g.dec * p);
    }
  }

  lemma {:induction false} UpsGrow(g: Gains, c: real, n: nat)
    requires g.Valid() && c > 0.0
    ensures Ups(g, c, n) >= c
  {
    if n > 0 {
      UpsGrow(g, c, n - 1);
      Scaled(Ups(g, c, n - 1), g);
    }
  }

  lemma {:induction false} DownsShrink(g: Gains, c: real, n: nat)
    requires g.Valid() && c > 0.0
    ensures 0.0 < Downs(g, c, n) <= c
  {
    if n > 0 {
      DownsShrink(g, c, n - 1);
      Scaled(Downs(g, c, n - 1), g);
    }
  }

  lemma DownMonotone(g: Gains, u: real, v: real)
    requires g.Valid() && u <= v
    ensures g.Down(u) <= g.Down(v)
  {
    Scales(u, v, g.dec);
    assert g.Down(u) == u * g.dec && g.Down(v) == v * g.dec;
  }

  // Every tick writes, with the same static maximum.
  predicate AllWrite(ticks: seq<Tick>, maxcc: real) {
    maxcc > 0.0 && forall i :: 0 <= i < |ticks| ==> ticks[i].alive && ticks[i].maxcc == maxcc && ticks[i].sight.conc >= 0.0
  }

  lemma {:induction false} RanWithin(o: Options, g: Gains, ttl: real, cell: Cell, ticks: seq<Tick>, maxcc: real,
                                     lo: real, hi: real)
    requires o.Registered() && g.Valid() && AllWrite(ticks, maxcc)
    requires 0.0 < lo <= BandOf(o, maxcc).init <= hi
    requires cell.Some? ==> BandOf(o, maxcc).Holds(cell.value.value) && lo <= cell.value.value <= hi
    ensures var c := Ran(o, g, ttl, cell, ticks); c.Some? ==>
      BandOf(o, maxcc).Holds(c.value.value) && Downs(g, lo, |ticks|) <= c.value.value <= Ups(g, hi, |ticks|)
    ensures ticks != [] ==> Ran(o, g, ttl, cell, ticks).Some?
  {
    if ticks != [] {
      var n, b := |ticks| - 1, BandOf(o, maxcc);
      RanWithin(o, g, ttl, cell, ticks[..n], maxcc, lo, hi);
      UpsGrow(g, hi, n);
      DownsShrink(g, lo, n);
      var cur := ValueOr(Ran(o, g, ttl, cell, ticks[..n]), ticks[n].now, b.init);
      OneGainAtMost(o, g, b, ticks[n].sight, cur);
      UpMonotone(g, cur, Ups(g, hi, n));
      DownMonotone(g, Downs(g, lo, n), cur);
    }
  }

  /**
   Whatever n ticks in a row see, the limit they leave is at most inc^n times the larger, and at least
   dec^n times the smaller, of the limit before them and the start point that takes its place if it expires.
   */
  lemma BoundedGrowth(o: Options, g: Gains, ttl: real, cell: Cell, ticks: seq<Tick>, maxcc: real)
    requires o.Registered() && g.Valid() && AllWrite(ticks, maxcc) && ticks != []
    requires cell.Some? && BandOf(o, maxcc).Holds(cell.value.value)
    ensures var c, init, v := cell.value.value, BandOf(o, maxcc).init, Ran(o, g, ttl, cell, ticks);
      && v.Some? && BandOf(o, maxcc).Holds(v.value.value)
      && MinOf(c, init) * Pow(g.dec, |ticks|) <= v.value.value <= MaxOf(c, init) * Pow(g.inc, |ticks|)
  {
    hide Next, Stepped, BandOf, Pow, Ups, Downs, Ran;
    var c, init := cell.value.value, BandOf(o, maxcc).init;
    RanWithin(o, g, ttl, cell, ticks, maxcc, MinOf(c, init), MaxOf(c, init));
    UpsIsPow(g, MaxOf(c, init), |ticks|);
    DownsArePow(g, MinOf(c, init), |ticks|);
  }

  // Every tick finds the limit the one before it wrote.
  predicate Unexpired(ticks: seq<Tick>, ttl: real) {
    forall i :: 0 < i < |ticks| ==> ticks[i].now < ticks[i - 1].now + ttl
  }

  lemma GrownOnce(b: Band, g: Gains, u: real)
    requires g.Valid() && b.Valid() && u > 0.0
    ensures MinOf(b.max, MinOf(b.max, u) * g.inc) == MinOf(b.max, g.Up(u))
  {
    Scaled(b.max, g);
    if u > b.max {
      UpMonotone(g, b.max, u);
    }
  }

  lemma ShrunkOnce(b: Band, g: Gains, u: real)
    requires g.Valid() && b.Valid() && u > 0.0
    ensures MaxOf(b.min, MaxOf(b.min, u) * g.dec) == MaxOf(b.min, g.Down(u))
  {
    Scaled(b.min, g);
    if u < b.min {
      DownMonotone(g, u, b.min);
    }
  }

  lemma RejectionWrites(o: Options, g: Gains, ttl: real, cell: Cell, t: Tick, u: real)
    requires o.Registered() && g.Valid() && t.Writes()
    requires t.sight.hasThreshold && !t.sight.over && t.sight.rejected
    requires Readable(cell, t.now) && u > 0.0
    requires cell.value.value == MinOf(t.maxcc, u) && BandOf(o, t.maxcc).Holds(cell.value.value)
    ensures var v := Stepped(o, g, ttl, cell, t);
      && v.Some? && v.value.value == MinOf(t.maxcc, g.Up(u))
      && (v.value.expires.Never? || v.value.expires.time == t.now + ttl)
  {
    hide Next, BandOf;
    GrownOnce(BandOf(o, t.maxcc), g, u);
    RejectedStep(o, g, BandOf(o, t.maxcc), t.sight, cell.value.value);
  }

  lemma {:induction false} ClimbsByGain(o: Options, g: Gains, ttl: real, cell: Cell, ticks: seq<Tick>, maxcc: real)
    requires o.Registered() && g.Valid() && AllWrite(ticks, maxcc) && Unexpired(ticks, ttl)
    requires forall i :: 0 <= i < |ticks| ==>
      ticks[i].sight.hasThreshold && !ticks[i].sight.over && ticks[i].sight.rejected
    requires cell.Some? && BandOf(o, maxcc).Holds(cell.value.value) && (ticks != [] ==> Readable(cell, ticks[0].now))
    ensures var v := Ran(o, g, ttl, cell, ticks);
      && v.Some? && v.value.value == MinOf(maxcc, Ups(g, cell.value.value, |ticks|))
      && (ticks != [] ==> v.value.expires.Never? || v.value.expires.time == ticks[|ticks| - 1].now + ttl)
  {
    hide Stepped, BandOf;
    if ticks != [] {
      var n := |ticks| - 1;
      ClimbsByGain(o, g, ttl, cell, ticks[..n], maxcc);
      UpsGrow(g, cell.value.value, n);
      RejectionWrites(o, g, ttl, Ran(o, g, ttl, cell, ticks[..n]), ticks[n], Ups(g, cell.value.value, n));
    }
  }

  /** n rejections in a row: exactly inc^n times the limit, up to the static maximum. */
  lemma RejectionsClimb(o: Options, g: Gains, ttl: real, cell: Cell, ticks: seq<Tick>, maxcc: real)
    requires o.Registered() && g.Valid() && AllWrite(ticks, maxcc) && Unexpired(ticks, ttl)
    requires forall i :: 0 <= i < |ticks| ==>
      ticks[i].sight.hasThreshold && !ticks[i].sight.over && ticks[i].sight.rejected
    requires cell.Some? && BandOf(o, maxcc).Holds(cell.value.value) && (ticks != [] ==> Readable(cell, ticks[0].now))
    ensures var v := Ran(o, g, ttl, cell, ticks);
      v.Some? && v.value.value == MinOf(maxcc, cell.value.value * Pow(g.inc, |ticks|))
  {
    hide Next, Stepped, BandOf, Ran;
    ClimbsByGain(o, g, ttl, cell, ticks, maxcc);
    UpsIsPow(g, cell.value.value, |ticks|);
  }

  lemma OverloadWrites(o: Options, g: Gains, ttl: real, cell: Cell, t: Tick, u: real)
    requires o.Registered() && g.Valid() && t.Writes() && t.sight.hasThreshold && t.sight.over
    requires Readable(cell, t.now) && u > 0.0
    requires cell.value.value == MaxOf(BandOf(o, t.maxcc).min, u) && cell.value.value <= t.maxcc
    ensures var v := Stepped(o, g, ttl, cell, t);
      && v.Some? && v.value.value == MaxOf(BandOf(o, t.maxcc).min, g.Down(u))
      && (v.value.expires.Never? || v.value.expires.time == t.now + ttl)
  {
    hide Next, BandOf;
    ShrunkOnce(BandOf(o, t.maxcc), g, u);
    OverloadStep(o, g, BandOf(o, t.maxcc), t.sight, cell.value.value);
  }

  lemma {:induction false} ShrinksByGain(o: Options, g: Gains, ttl: real, cell: Cell, ticks: seq<Tick>, maxcc: real)
    requires o.Registered() && g.Valid() && AllWrite(ticks, maxcc) && Unexpired(ticks, ttl)
    requires forall i :: 0 <= i < |ticks| ==> ticks[i].sight.hasThreshold && ticks[i].sight.over
    requires cell.Some? && BandOf(o, maxcc).Holds(cell.value.value) && (ticks != [] ==> Readable(cell, ticks[0].now))
    ensures var v := Ran(o, g, ttl, cell, ticks);
      && v.Some? && v.value.value == MaxOf(BandOf(o, maxcc).min, Downs(g, cell.value.value, |ticks|))
      && (ticks != [] ==> v.value.expires.Never? || v.value.expires.time == ticks[|ticks| - 1].now + ttl)
  {
    hide Stepped, BandOf;
    if ticks != [] {
      var n := |ticks| - 1;
      ShrinksByGain(o, g, ttl, cell, ticks[..n], maxcc);
      DownsShrink(g, cell.value.value, n);
      OverloadWrites(o, g, ttl, Ran(o, g, ttl, cell, ticks[..n]), ticks[n], Downs(g, cell.value.value, n));
    }
  }

  /** n overloads in a row: exactly dec^n times the limit, down to the floor. */
  lemma OverloadsShrink(o: Options, g: Gains, ttl: real, cell: Cell, ticks: seq<Tick>, maxcc: real)
    requires o.Registered() && g.Valid() && AllWrite(ticks, maxcc) && Unexpired(ticks, ttl)
    requires forall i :: 0 <= i < |ticks| ==> ticks[i].sight.hasThreshold && ticks[i].sight.over
    requires cell.Some? && BandOf(o, maxcc).Holds(cell.value.value) && (ticks != [] ==> Readable(cell, ticks[0].now))
    ensures var v := Ran(o, g, ttl, cell, ticks);
      v.Some? && v.value.value == MaxOf(BandOf(o, maxcc).min, cell.value.value * Pow(g.dec, |ticks|))
  {
    hide Next, Stepped, BandOf;
    ShrinksByGain(o, g, ttl, cell, ticks, maxcc);
    DownsArePow(g, cell.value.value, |ticks|);
  }

  /** Of all steps only an overload one takes the limit from the start point or above to below it. */
  lemma OnlyOverloadGoesUnderInit(o: Options, g: Gains, b: Band, s: Sight, c: real)
    requires o.Registered() && g.Valid() && b.Valid() && c >= b.init && s.conc >= 0.0
    ensures Next(o, g, b, s, c) < b.init ==> s.hasThreshold && s.over && g.Down(c) < b.init
    ensures s.hasThreshold && s.over && g.Down(c) < b.init && b.min < b.init ==> Next(o, g, b, s, c) < b.init
  {
    BandsApart(o, b, s.conc, c);
    Scaled(c, g);
  }

  lemma RecoversOneStep(o: Options, g: Gains, b: Band, s: Sight, c: real)
    requires o.Registered() && g.Valid() && b.Valid() && c > 0.0 && s.conc >= 0.0 && s.hasThreshold && !s.over
    ensures Next(o, g, b, s, c) >= MinOf(g.Up(c), b.init)
  {
    BandsApart(o, b, s.conc, c);
    Scaled(c, g);
  }

  lemma ClimbsAlong(g: Gains, u: real, cur: real, init: real)
    requires g.Valid() && u > 0.0 && cur > 0.0 && cur >= MinOf(u, init)
    ensures g.Up(u) > 0.0 && MinOf(g.Up(cur), init) >= MinOf(g.Up(u), init)
  {
    Scaled(u, g);
    Scaled(cur, g);
    if u <= cur {
      UpMonotone(g, u, cur);
    }
  }

  lemma UpMonotone(g: Gains, u: real, v: real)
    requires g.Valid() && u <= v
    ensures g.Up(u) <= g.Up(v)
  {
    Scales(u, v, g.inc);
    assert g.Up(u) == u * g.inc && g.Up(v) == v * g.inc;
  }

  predicate Healthy(ticks: seq<Tick>, maxcc: real) {
    forall i :: 0 <= i < |ticks| ==>
      && ticks[i].alive && ticks[i].maxcc == maxcc
      && ticks[i].sight.hasThreshold && !ticks[i].sight.over && ticks[i].sight.conc >= 0.0
  }

  lemma {:induction false} RecoversAfter(o: Options, g: Gains, ttl: real, cell: Cell, ticks: seq<Tick>, maxcc: real, c: real)
    requires o.Registered() && g.Valid() && maxcc > 0.0 && c > 0.0 && Healthy(ticks, maxcc)
    requires cell.Some? && cell.value.value >= c
    ensures Ran(o, g, ttl, cell, ticks).Some?
    ensures Ran(o, g, ttl, cell, ticks).value.value >= MinOf(Ups(g, c, |ticks|), BandOf(o, maxcc).init)
    ensures Ups(g, c, |ticks|) > 0.0
  {
    if ticks != [] {
      var n, b := |ticks| - 1, BandOf(o, maxcc);
      RecoversAfter(o, g, ttl, cell, ticks[..n], maxcc, c);
      var now := ticks[n].now;
      var cur := ValueOr(Ran(o, g, ttl, cell, ticks[..n]), now, b.init);
      RecoversOneStep(o, g, b, ticks[n].sight, cur);
      ClimbsAlong(g, Ups(g, c, n), cur, b.init);
    }
  }

  lemma UpsReach(g: Gains, c: real, n: nat, init: real)
    requires c * Pow(g.inc, n) >= init
    ensures Ups(g, c, n) >= init
  {
    UpsIsPow(g, c, n);
  }

  /** From any limit c below the start point, n ticks without overload reach it once c * inc^n does. */
  lemma Recovers(o: Options, g: Gains, ttl: real, cell: Cell, ticks: seq<Tick>, maxcc: real)
    requires o.Registered() && g.Valid() && maxcc > 0.0 && Healthy(ticks, maxcc)
    requires cell.Some? && cell.value.value > 0.0
    requires cell.value.value * Pow(g.inc, |ticks|) >= BandOf(o, maxcc).init
    ensures Ran(o, g, ttl, cell, ticks).Some? && Ran(o, g, ttl, cell, ticks).value.value >= BandOf(o, maxcc).init
  {
    hide Next, Stepped, BandOf, DeriveInit, DeriveMin;
    UpsReach(g, cell.value.value, |ticks|, BandOf(o, maxcc).init);
    RecoversAfter(o, g, ttl, cell, ticks, maxcc, cell.value.value);
  }

  predicate Steady(ticks: seq<Tick>, maxcc: real, s: Sight, ttl: real) {
    && (forall i :: 0 <= i < |ticks| ==> ticks[i].alive && ticks[i].maxcc == maxcc && ticks[i].sight == s)
    && (forall i :: 0 < i < |ticks| ==> ticks[i].now < ticks[i - 1].now + ttl)
  }

  /** The stored limit of a steady pool whose ticks come within its lifetime is the iterated step. */
  lemma {:induction false} SteadyRunIterates(o: Options, g: Gains, ttl: real, cell: Cell, ticks: seq<Tick>, maxcc: real,
                                             s: Sight)
    requires o.Registered() && maxcc > 0.0 && Steady(ticks, maxcc, s, ttl)
    requires cell.Some? && (ticks != [] ==> Readable(cell, ticks[0].now))
    ensures Ran(o, g, ttl, cell, ticks).Some?
    ensures Ran(o, g, ttl, cell, ticks).value.value == Iterate(o, g, BandOf(o, maxcc), s, cell.value.value, |ticks|)
    ensures ticks != [] ==>
      Ran(o, g, ttl, cell, ticks).value.expires == if s.hold then Never else At(ticks[|ticks| - 1].now + ttl)
  {
    if ticks != [] {
      SteadyRunIterates(o, g, ttl, cell, ticks[..|ticks| - 1], maxcc, s);
    }
  }

  // ── The lifetime of the stored limit ──

  /** With `hold` on, a written limit never disappears, and without a signal it never changes. */
  lemma {:induction false} HeldForever(o: Options, g: Gains, ttl: real, cell: Cell, ticks: seq<Tick>, later: real)
    requires o.Registered() && cell.Some? && cell.value.expires.Never?
    requires forall i :: 0 <= i < |ticks| ==> ticks[i].sight.hold
    ensures Ran(o, g, ttl, cell, ticks).Some? && Ran(o, g, ttl, cell, ticks).value.expires.Never?
    ensures Readable(Ran(o, g, ttl, cell, ticks), later)
    ensures (forall i :: 0 <= i < |ticks| ==> !ticks[i].alive) ==> Ran(o, g, ttl, cell, ticks) == cell
  {
    if ticks != [] {
      HeldForever(o, g, ttl, cell, ticks[..|ticks| - 1], later);
    }
  }

  /** The first held tick that writes or still reads the limit makes it permanent. */
  lemma {:induction false} HoldTakesEffect(o: Options, g: Gains, ttl: real, cell: Cell, t: Tick)
    requires o.Registered() && t.sight.hold && (t.Writes() || (!t.alive && Readable(cell, t.now)))
    ensures Stepped(o, g, ttl, cell, t).Some? && Stepped(o, g, ttl, cell, t).value.expires.Never?
    ensures !t.alive ==> Stepped(o, g, ttl, cell, t).value.value == cell.value.value
  {
  }

  predicate GoneBy(cell: Cell, deadline: real) {
    cell.Some? ==> cell.value.expires.At? && cell.value.expires.time <= deadline
  }

  // No signal and no hold: the lifetime of a mortal limit is left alone.
  lemma {:induction false} StaysMortal(o: Options, g: Gains, ttl: real, cell: Cell, ticks: seq<Tick>, deadline: real)
    requires o.Registered() && GoneBy(cell, deadline)
    requires forall i :: 0 <= i < |ticks| ==> !ticks[i].alive && !ticks[i].sight.hold
    ensures GoneBy(Ran(o, g, ttl, cell, ticks), deadline)
  {
    if ticks != [] {
      StaysMortal(o, g, ttl, cell, ticks[..|ticks| - 1], deadline);
    }
  }

  lemma {:induction false} RanFrom(o: Options, g: Gains, ttl: real, cell: Cell, first: Tick, rest: seq<Tick>)
    requires o.Registered()
    ensures Ran(o, g, ttl, cell, [first] + rest) == Ran(o, g, ttl, Stepped(o, g, ttl, cell, first), rest)
  {
    if rest == [] {
      assert [first] + rest == [first] && [first][..0] == [];
    } else {
      var n := |rest| - 1;
      assert ([first] + rest)[..n + 1] == [first] + rest[..n];
      RanFrom(o, g, ttl, cell, first, rest[..n]);
    }
  }

  /**
   Hold off and no signal from `from` on, with a tick at most `interval` later: the limit is gone one
   lifetime after that, even if it was held, and so immortal, until then.
   */
  lemma {:induction false} GoneAfterIntervalAndTtl(o: Options, g: Gains, ttl: real, cell: Cell, ticks: seq<Tick>, from: real,
                                interval: real, later: real)
    requires o.Registered() && ttl > 0.0 && interval >= 0.0
    requires cell.Some? && cell.value.expires.At? ==> cell.value.expires.time <= from + ttl
    requires |ticks| > 0 && from <= ticks[0].now <= from + interval
    requires forall i :: 0 <= i < |ticks| ==> !ticks[i].alive && !ticks[i].sight.hold
    requires later >= from + interval + ttl
    ensures !Readable(Ran(o, g, ttl, cell, ticks), later)
  {
    assert ticks == [ticks[0]] + ticks[1..];
    RanFrom(o, g, ttl, cell, ticks[0], ticks[1..]);
    var c := Stepped(o, g, ttl, cell, ticks[0]);
    StaysMortal(o, g, ttl, c, ticks[1..], from + interval + ttl);
  }

  /** An expired limit comes back only by a write: no run of ticks without one revives it. */
  lemma {:induction false} NeverRevived(o: Options, g: Gains, ttl: real, cell: Cell, ticks: seq<Tick>, from: real,
                                        later: real)
    requires o.Registered() && !Readable(cell, from) && InOrder(ticks, from) && later >= from
    requires forall i :: 0 <= i < |ticks| ==> !ticks[i].Writes()
    ensures Ran(o, g, ttl, cell, ticks) == cell && !Readable(Ran(o, g, ttl, cell, ticks), later)
  {
    if ticks != [] {
      NeverRevived(o, g, ttl, cell, ticks[..|ticks| - 1], from, later);
    }
  }
}
