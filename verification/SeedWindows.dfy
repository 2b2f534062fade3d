/** How the demo seeder cuts its time window (scripts/seed_demo_data.py, seed_events,
    _copy_worker and _generate_event_csv_chunk): across workers, then into days, then into
    hours. Times are whole seconds since some Monday midnight, UTC. */
module SeedWindows {

  const HOUR := 3600
  const DAY := 86400

  datatype Window = Window(start: int, end: int)

  // ---------------------------------------------------------------------------
  // Workers

  function Chunk(days: nat, workers: nat): nat
    requires 1 <= workers
  {
    days * DAY / workers
  }

  /** The windows of workers i, i + 1, ...; the last one takes whatever the division left. */
  function WorkersFrom(start: int, days: nat, workers: nat, i: nat): seq<Window>
    requires 1 <= workers && i <= workers
    decreases workers - i
  {
    if i == workers then []
    else
      var chunk := Chunk(days, workers);
      [Window(start + i * chunk, if i < workers - 1 then start + (i + 1) * chunk else start + days * DAY)]
      + WorkersFrom(start, days, workers, i + 1)
  }

  method SplitAcrossWorkers(start: int, days: nat, workers: nat) returns (windows: seq<Window>)
    requires 1 <= workers
    ensures windows == WorkersFrom(start, days, workers, 0)
  {
    var end := start + days * DAY;
    var windowSeconds := end - start;
    var chunkSeconds := windowSeconds / workers;
    windows := [];
    for i := 0 to workers
      invariant windows + WorkersFrom(start, days, workers, i) == WorkersFrom(start, days, workers, 0)
    {
      var from := start + i * chunkSeconds;
      var until := if i < workers - 1 then start + (i + 1) * chunkSeconds else end;
      windows := windows + [Window(from, until)];
    }
  }

  // ---------------------------------------------------------------------------
  // Days

  function Days(start: int, end: int): seq<Window>
    decreases end - start
  {
    if start >= end then []
    else
      var dayEnd := if start + DAY < end then start + DAY else end;
      [Window(start, dayEnd)] + Days(dayEnd, end)
  }

  method CutIntoDays(w: Window) returns (slices: seq<Window>)
    ensures slices == Days(w.start, w.end)
  {
    slices := [];
    var dayStart := w.start;
    while dayStart < w.end
      invariant slices + Days(dayStart, w.end) == Days(w.start, w.end)
    {
      var dayEnd := if dayStart + DAY < w.end then dayStart + DAY else w.end;
      slices := slices + [Window(dayStart, dayEnd)];
      dayStart := dayEnd;
    }
  }

  /** All slices, worker by worker. */
  function Slices(windows: seq<Window>): seq<Window> {
    if windows == [] then [] else Days(windows[0].start, windows[0].end) + Slices(windows[1..])
  }

  function AllSlices(start: int, days: nat, workers: nat): seq<Window>
    requires 1 <= workers
  {
    Slices(WorkersFrom(start, days, workers, 0))
  }

  // ---------------------------------------------------------------------------
  // Hours

  function Hours(start: int, end: int): seq<int>
    decreases end - start
  {
    if start >= end then [] else [start] + Hours(start + HOUR, end)
  }

  method GenerateHours(w: Window) returns (hours: seq<int>)
    ensures hours == Hours(w.start, w.end)
  {
    hours := [];
    var current := w.start;
    while current < w.end
      invariant hours + Hours(current, w.end) == Hours(w.start, w.end)
      decreases w.end - current
    {
      hours := hours + [current];
      current := current + HOUR;
    }
  }

  function AllHours(slices: seq<Window>): seq<int> {
    if slices == [] then [] else Hours(slices[0].start, slices[0].end) + AllHours(slices[1..])
  }

  // ---------------------------------------------------------------------------
  // How many events an hour gets

  function WeekendFactor(t: int): real {
    if t / DAY % 7 >= 5 then 0.10 else 1.0
  }

  function HourlyMultiplier(t: int): real {
    var hour := t / HOUR % 24;
    if 9 <= hour <= 13 then 1.8
    else if 14 <= hour <= 18 then 1.5
    else if 6 <= hour < 9 || 18 < hour <= 22 then 0.6
    else 0.15
  }

  function AtLeastOne(n: int): int {
    if n < 1 then 1 else n
  }

  /** The growth trend, over the slice that one call covers. */
  function GrowthFactor(w: Window, t: int): real {
    1.0 + 0.20 * (((t - w.start) / DAY) as real / AtLeastOne((w.end - w.start) / DAY) as real)
  }

  /** `load` is the draw of uniform(0.8, 1.2) for each hour. */
  function EventsThisHour(orgs: nat, load: int -> real, w: Window, t: int): int {
    var base := orgs as real * 60.0 * WeekendFactor(t) * HourlyMultiplier(t) * GrowthFactor(w, t) * load(t);
    if base.Floor < 0 then 0 else base.Floor
  }

  /** The event times a slice can produce: an hour with events, plus a random second of it. */
  ghost predicate CanProduce(orgs: nat, load: int -> real, w: Window, t: int) {
    exists h :: h in Hours(w.start, w.end) && h <= t < h + HOUR && EventsThisHour(orgs, load, w, h) > 0
  }

  // ---------------------------------------------------------------------------
  // The slices partition the window

  /** Consecutive non-empty slices of at most a day from a to b. */
  predicate Chain(slices: seq<Window>, a: int, b: int) {
    if slices == [] then a == b
    else slices[0].start == a && a < slices[0].end <= a + DAY && Chain(slices[1..], slices[0].end, b)
  }

  function CountContaining(slices: seq<Window>, t: int): nat {
    if slices == [] then 0
    else (if slices[0].start <= t < slices[0].end then 1 else 0) + CountContaining(slices[1..], t)
  }

  lemma {:induction false} ChainAppend(x: seq<Window>, y: seq<Window>, a: int, b: int, c: int)
    requires Chain(x, a, b) && Chain(y, b, c)
    ensures Chain(x + y, a, c)
  {
    if x == [] {
      assert x + y == y;
    } else {
      ChainAppend(x[1..], y, x[0].end, b, c);
      assert (x + y)[1..] == x[1..] + y;
    }
  }

  lemma {:induction false} DaysChain(start: int, end: int)
    requires start <= end
    ensures Chain(Days(start, end), start, end)
    decreases end - start
  {
    if start < end {
      DaysChain(if start + DAY < end then start + DAY else end, end);
    }
  }

  /** The chunks fit: all but the last worker together stay inside the window. */
  lemma ChunksFit(days: nat, workers: nat, i: nat)
    requires 1 <= workers && i <= workers
    ensures i * Chunk(days, workers) <= days * DAY
  {
    var chunk := Chunk(days, workers);
    assert workers * chunk <= days * DAY;
    assert i * chunk <= workers * chunk by {
      MulMono(i, workers, chunk);
    }
  }

  lemma MulMono(a: nat, b: nat, c: nat)
    requires a <= b
    ensures a * c <= b * c
  {
  }

  lemma {:induction false} WorkersChain(start: int, days: nat, workers: nat, i: nat)
    requires 1 <= workers && i < workers
    ensures Chain(Slices(WorkersFrom(start, days, workers, i)), start + i * Chunk(days, workers), start + days * DAY)
    decreases workers - i
  {
    var chunk := Chunk(days, workers);
    var windows := WorkersFrom(start, days, workers, i);
    ChunksFit(days, workers, i);
    ChunksFit(days, workers, i + 1);
    MulMono(i, i + 1, chunk);
    DaysChain(windows[0].start, windows[0].end);
    if i < workers - 1 {
      WorkersChain(start, days, workers, i + 1);
      ChainAppend(Days(windows[0].start, windows[0].end), Slices(windows[1..]),
                  windows[0].start, windows[0].end, start + days * DAY);
    } else {
      assert windows[1..] == [];
      assert Days(windows[0].start, windows[0].end) + [] == Days(windows[0].start, windows[0].end);
    }
  }

  lemma {:induction false} ChainCountsOnce(slices: seq<Window>, a: int, b: int, t: int)
    requires Chain(slices, a, b)
    ensures a <= b
    ensures CountContaining(slices, t) == if a <= t < b then 1 else 0
  {
    if slices != [] {
      ChainCountsOnce(slices[1..], slices[0].end, b, t);
    }
  }

  /** The workers' day slices follow one another without gap or overlap, each non-empty and at
      most a day long, and every second of the window lies in exactly one of them, however the
      seconds divide by the workers. */
  lemma {:induction false} SlicesPartitionTheWindow(start: int, days: nat, workers: nat, t: int)
    requires 1 <= workers
    ensures var slices := AllSlices(start, days, workers);
            && Chain(slices, start, start + days * DAY)
            && CountContaining(slices, t) == if start <= t < start + days * DAY then 1 else 0
  {
    WorkersChain(start, days, workers, 0);
    ChainCountsOnce(AllSlices(start, days, workers), start, start + days * DAY, t);
  }

  // ---------------------------------------------------------------------------
  // Timestamps and slice ends

  lemma {:induction false} HoursAre(start: int, end: int, h: int)
    ensures h in Hours(start, end) <==> start <= h < end && (h - start) % HOUR == 0
    decreases end - start
  {
    if start < end {
      HoursAre(start + HOUR, end, h);
      assert (h - (start + HOUR)) % HOUR == (h - start) % HOUR;
    }
  }

  /** A timestamp may pass its slice's end, but by less than an hour. */
  lemma OvershootBelowAnHour(orgs: nat, load: int -> real, w: Window, t: int)
    requires CanProduce(orgs, load, w, t)
    ensures w.start <= t < w.end + HOUR - 1
  {
    hide EventsThisHour;
    var h :| h in Hours(w.start, w.end) && h <= t < h + HOUR;
    HoursAre(w.start, w.end, h);
  }

  /** The hour of a slice that its end cuts short, when it is not whole hours long. */
  function LastHour(w: Window): int {
    w.end - (w.end - w.start) % HOUR
  }

  /** The slice is whole hours long, or has no event in the hour its end cuts short. */
  predicate WholeOrQuiet(orgs: nat, load: int -> real, w: Window) {
    (w.end - w.start) % HOUR == 0 || EventsThisHour(orgs, load, w, LastHour(w)) <= 0
  }

  /** The events of a non-empty slice stay inside it, whatever second each draws, exactly when
      the slice is whole hours long or quiet in the hour its end cuts short. */
  lemma {:induction false} StaysInsideExactlyWhen(orgs: nat, load: int -> real, w: Window)
    requires w.start < w.end
    ensures (forall t :: CanProduce(orgs, load, w, t) ==> t < w.end) <==> WholeOrQuiet(orgs, load, w)
  {
    hide EventsThisHour;
    if WholeOrQuiet(orgs, load, w) {
      forall t | CanProduce(orgs, load, w, t) ensures t < w.end {
        var h :| h in Hours(w.start, w.end) && h <= t < h + HOUR && EventsThisHour(orgs, load, w, h) > 0;
        HoursAre(w.start, w.end, h);
        NextHour(w, h);
      }
    } else {
      var h := LastHour(w);
      LastHourIsOne(w);
      HoursAre(w.start, w.end, h);
      assert CanProduce(orgs, load, w, w.end);
    }
  }

  lemma LastHourIsOne(w: Window)
    requires w.start < w.end && (w.end - w.start) % HOUR != 0
    ensures w.start <= LastHour(w) < w.end < LastHour(w) + HOUR && (LastHour(w) - w.start) % HOUR == 0
  {
  }

  lemma NextHour(w: Window, h: int)
    requires w.start <= h < w.end && (h - w.start) % HOUR == 0
    ensures h + HOUR <= w.end || ((w.end - w.start) % HOUR != 0 && h == LastHour(w))
  {
  }

  lemma WholeHoursApart(a: int, b: int)
    requires a % HOUR == 0 && b % HOUR == 0 && a < b
    ensures a + HOUR <= b
  {
  }

  predicate WholeHours(slices: seq<Window>) {
    forall i :: 0 <= i < |slices| ==> (slices[i].end - slices[i].start) % HOUR == 0
  }

  lemma {:induction false} DaysWholeHours(start: int, end: int)
    requires start <= end
    ensures WholeHours(Days(start, end)) <==> (end - start) % HOUR == 0
    decreases end - start
  {
    hide WholeHours;
    NoneIsWhole();
    if start < end {
      var dayEnd := if start + DAY < end then start + DAY else end;
      OneIsWhole(Window(start, dayEnd));
      DaysWholeHours(dayEnd, end);
      WholeHoursSplit([Window(start, dayEnd)], Days(dayEnd, end));
      DayOfHours(start, end);
    }
  }

  lemma DayOfHours(start: int, end: int)
    ensures (end - (start + DAY)) % HOUR == (end - start) % HOUR
  {
  }

  lemma OneIsWhole(w: Window)
    ensures WholeHours([w]) <==> (w.end - w.start) % HOUR == 0
  {
    assert [w][0] == w;
  }

  lemma WholeHoursSplit(x: seq<Window>, y: seq<Window>)
    ensures WholeHours(x + y) <==> WholeHours(x) && WholeHours(y)
  {
    if WholeHours(x + y) {
      assert forall i :: 0 <= i < |x| ==> x[i] == (x + y)[i];
      assert forall i :: 0 <= i < |y| ==> y[i] == (x + y)[|x| + i];
    }
  }

  /** Every worker but the last has a chunk; with whole-hour chunks the last has whole hours too. */
  lemma WorkerLength(start: int, days: nat, workers: nat, i: nat)
    requires 1 <= workers && i < workers
    ensures var w := WorkersFrom(start, days, workers, i)[0];
            && w.start <= w.end
            && (i < workers - 1 ==> w.end - w.start == Chunk(days, workers))
            && (Chunk(days, workers) % HOUR == 0 ==> (w.end - w.start) % HOUR == 0)
  {
    var chunk := Chunk(days, workers);
    ChunksFit(days, workers, i);
    assert (i + 1) * chunk == i * chunk + chunk;
    if chunk % HOUR == 0 {
      MultipleOfMultiple(i, chunk);
      DifferenceOfMultiples(days * DAY, i * chunk);
    }
  }

  lemma DifferenceOfMultiples(a: int, b: int)
    requires a % HOUR == 0 && b % HOUR == 0
    ensures (a - b) % HOUR == 0
  {
  }

  lemma {:induction false} WorkersWholeHours(start: int, days: nat, workers: nat, i: nat)
    requires 1 <= workers && i < workers
    ensures Chunk(days, workers) % HOUR == 0 ==> WholeHours(Slices(WorkersFrom(start, days, workers, i)))
    ensures Chunk(days, workers) % HOUR != 0 && i < workers - 1 ==> !WholeHours(Slices(WorkersFrom(start, days, workers, i)))
    decreases workers - i
  {
    hide Chunk, Days, WholeHours;
    var windows := WorkersFrom(start, days, workers, i);
    var w := windows[0];
    WorkerLength(start, days, workers, i);
    DaysWholeHours(w.start, w.end);
    WholeHoursSplit(Days(w.start, w.end), Slices(windows[1..]));
    if i < workers - 1 {
      WorkersWholeHours(start, days, workers, i + 1);
    } else {
      assert windows[1..] == [];
      NoneIsWhole();
    }
  }

  lemma NoneIsWhole()
    ensures WholeHours([])
  {
  }

  lemma {:induction false} MultipleOfMultiple(i: nat, chunk: nat)
    requires chunk % HOUR == 0
    ensures (i * chunk) % HOUR == 0
  {
    if i > 0 {
      MultipleOfMultiple(i - 1, chunk);
      assert i * chunk == (i - 1) * chunk + chunk;
    }
  }

  /** Every event of every worker stays inside its slice, whatever second it draws. */
  ghost predicate TimestampsStay(orgs: nat, load: int -> real, slices: seq<Window>) {
    forall i, t :: 0 <= i < |slices| && CanProduce(orgs, load, slices[i], t) ==> t < slices[i].end
  }

  /** No event can pass the end of its slice if and only if every slice is whole hours long or
      has no event in the hour that its end cuts short. */
  lemma {:induction false} TimestampsStayExactlyWhen(start: int, days: nat, workers: nat, orgs: nat, load: int -> real)
    requires 1 <= workers
    ensures var slices := AllSlices(start, days, workers);
            TimestampsStay(orgs, load, slices) <==>
            forall i :: 0 <= i < |slices| ==> WholeOrQuiet(orgs, load, slices[i])
  {
    hide Chunk, Chain, CanProduce, WholeOrQuiet, WorkersFrom, Slices;
    var slices := AllSlices(start, days, workers);
    WorkersChain(start, days, workers, 0);
    forall i | 0 <= i < |slices|
      ensures (forall t :: CanProduce(orgs, load, slices[i], t) ==> t < slices[i].end) <==> WholeOrQuiet(orgs, load, slices[i])
    {
      ChainElement(slices, start, start + days * DAY, i);
      StaysInsideExactlyWhen(orgs, load, slices[i]);
    }
  }

  /** With two organisations or more, every hour has events, so no event can pass the end of its
      slice if and only if the per-worker chunk is a whole number of hours. */
  lemma {:induction false} TwoOrgsStayExactlyWhen(start: int, days: nat, workers: nat, orgs: nat, load: int -> real)
    requires 1 <= workers && orgs >= 2 && forall t :: 0.8 <= load(t) <= 1.2
    ensures TimestampsStay(orgs, load, AllSlices(start, days, workers)) <==> Chunk(days, workers) % HOUR == 0
  {
    hide Chunk, Chain, TimestampsStay, EventsThisHour, WorkersFrom, Slices;
    var slices := AllSlices(start, days, workers);
    TimestampsStayExactlyWhen(start, days, workers, orgs, load);
    WorkersChain(start, days, workers, 0);
    WorkersWholeHours(start, days, workers, 0);
    if workers == 1 {
      OneWorker(days);
    }
    assert WholeHours(slices) <==> Chunk(days, workers) % HOUR == 0;
    forall i | 0 <= i < |slices|
      ensures WholeOrQuiet(orgs, load, slices[i]) <==> (slices[i].end - slices[i].start) % HOUR == 0
    {
      ChainElement(slices, start, start + days * DAY, i);
      if (slices[i].end - slices[i].start) % HOUR != 0 {
        LastHourIsOne(slices[i]);
        NoQuietHour(orgs, load, slices[i], LastHour(slices[i]));
      }
    }
  }

  /** A call covers a day at most, so the growth trend it computes never grows. */
  lemma NoGrowth(w: Window, t: int)
    requires w.start <= t < w.end <= w.start + DAY
    ensures GrowthFactor(w, t) == 1.0
  {
    assert (t - w.start) / DAY == 0;
  }

  lemma AtLeast(a: real, b: real, x: real, y: real)
    requires 0.0 <= x <= a && 0.0 <= y <= b
    ensures x * y <= a * b
  {
    assert x * y <= a * y;
    assert a * y <= a * b;
  }

  lemma NoQuietHour(orgs: nat, load: int -> real, w: Window, t: int)
    requires orgs >= 2 && load(t) >= 0.8 && w.start <= t < w.end <= w.start + DAY
    ensures EventsThisHour(orgs, load, w, t) > 0
  {
    hide GrowthFactor, WeekendFactor, HourlyMultiplier;
    NoGrowth(w, t);
    FactorsAtLeast(t);
    var a := orgs as real * 60.0;
    AtLeast(a, WeekendFactor(t), 120.0, 0.1);
    AtLeast(a * WeekendFactor(t), HourlyMultiplier(t), 12.0, 0.15);
    AtLeast(a * WeekendFactor(t) * HourlyMultiplier(t), load(t), 1.8, 0.8);
  }

  lemma FactorsAtLeast(t: int)
    ensures WeekendFactor(t) >= 0.1 && HourlyMultiplier(t) >= 0.15
  {
  }

  /** With a single organisation an hour can stay empty: Saturday at midnight, for one. */
  lemma OneOrgCanBeQuiet(load: int -> real)
    requires load(5 * DAY) == 1.0
    ensures EventsThisHour(1, load, Window(5 * DAY, 6 * DAY), 5 * DAY) == 0
  {
    NoGrowth(Window(5 * DAY, 6 * DAY), 5 * DAY);
    assert WeekendFactor(5 * DAY) == 0.1 && HourlyMultiplier(5 * DAY) == 0.15;
  }

  lemma OneWorker(days: nat)
    ensures Chunk(days, 1) % HOUR == 0
  {
    DayOfHours(0, days * DAY);
    MultipleOfMultiple(days, DAY);
  }

  lemma {:induction false} ChainElement(slices: seq<Window>, a: int, b: int, i: nat)
    requires Chain(slices, a, b) && i < |slices|
    ensures slices[i].start < slices[i].end <= slices[i].start + DAY
  {
    if i > 0 {
      ChainElement(slices[1..], slices[0].end, b, i - 1);
    }
  }

  // ---------------------------------------------------------------------------
  // Hours

  lemma {:induction false} HoursJoin(a: int, b: int, c: int)
    requires a <= b <= c && (b - a) % HOUR == 0
    ensures Hours(a, b) + Hours(b, c) == Hours(a, c)
    decreases b - a
  {
    if a < b {
      WholeHoursApart(0, b - a);
      assert (b - (a + HOUR)) % HOUR == 0;
      HoursJoin(a + HOUR, b, c);
    }
  }

  lemma {:induction false} ChainHours(slices: seq<Window>, a: int, b: int)
    requires Chain(slices, a, b) && WholeHours(slices)
    ensures a <= b && AllHours(slices) == Hours(a, b)
  {
    if slices != [] {
      assert forall i :: 0 <= i < |slices[1..]| ==> slices[1..][i] == slices[i + 1];
      ChainHours(slices[1..], slices[0].end, b);
      HoursJoin(a, slices[0].end, b);
    }
  }

  /** With whole-hour chunks, the workers' hours put together are the hours of the window, each
      once and in order. */
  lemma {:induction false} EveryHourOnce(start: int, days: nat, workers: nat)
    requires 1 <= workers && Chunk(days, workers) % HOUR == 0
    ensures AllHours(AllSlices(start, days, workers)) == Hours(start, start + days * DAY)
  {
    WorkersChain(start, days, workers, 0);
    WorkersWholeHours(start, days, workers, 0);
    ChainHours(AllSlices(start, days, workers), start, start + days * DAY);
  }

  // ---------------------------------------------------------------------------
  // Each window, slice, hour and count itself

  /** Worker i gets the i-th chunk of the window's seconds divided by the workers, the last worker
      all that is left. */
  lemma {:induction false} WorkerWindows(start: int, days: nat, workers: nat, from: nat, i: nat)
    requires 1 <= workers && from <= i < workers
    ensures var windows, chunk := WorkersFrom(start, days, workers, from), days * 86400 / workers;
            && |windows| == workers - from
            && windows[i - from] == Window(start + i * chunk,
                                           if i == workers - 1 then start + days * 86400 else start + (i + 1) * chunk)
    decreases i - from
  {
    if from < i {
      WorkerWindows(start, days, workers, from + 1, i);
      assert WorkersFrom(start, days, workers, from)[1..] == WorkersFrom(start, days, workers, from + 1);
    } else {
      WorkersLeft(start, days, workers, from);
    }
  }

  lemma {:induction false} WorkersLeft(start: int, days: nat, workers: nat, from: nat)
    requires 1 <= workers && from <= workers
    ensures |WorkersFrom(start, days, workers, from)| == workers - from
    decreases workers - from
  {
    if from < workers {
      WorkersLeft(start, days, workers, from + 1);
    }
  }

  /** Every slice but a worker's last is a whole day; the last ends where the worker's window does. */
  lemma {:induction false} DaySlices(start: int, end: int, i: nat)
    requires start < end
    ensures var slices := Days(start, end);
            && (|slices| - 1) * 86400 < end - start <= |slices| * 86400
            && (i < |slices| ==>
                  slices[i] == Window(start + i * 86400, if i == |slices| - 1 then end else start + (i + 1) * 86400))
    decreases end - start
  {
    if start + DAY < end {
      DaySlices(start + DAY, end, if i == 0 then 0 else i - 1);
    } else {
      assert Days(end, end) == [];
    }
  }

  /** The hours start a slice's start apart by 3600 seconds, as long as one begins inside it. */
  lemma {:induction false} HourStarts(start: int, end: int, i: nat)
    ensures var hours := Hours(start, end);
            && (start < end ==> (|hours| - 1) * 3600 < end - start <= |hours| * 3600)
            && (start >= end ==> hours == [])
            && (i < |hours| ==> hours[i] == start + i * 3600)
    decreases end - start
  {
    if start < end {
      HourStarts(start + HOUR, end, if i == 0 then 0 else i - 1);
    }
  }

  /** How many events an hour gets: 60 for each organisation, times a tenth on Saturday and Sunday,
      times the factor of the hour of the day, times the draw, rounded down. */
  lemma CountOfAnHour(orgs: nat, load: int -> real, w: Window, t: int)
    requires w.start <= t < w.end <= w.start + 86400 && load(t) >= 0.0
    ensures var hour, weekday := t / 3600 % 24, t / 86400 % 7;
            var weekend := if weekday == 5 || weekday == 6 then 0.1 else 1.0;
            var ofDay := if hour < 6 || hour == 23 then 0.15
                         else if hour < 9 || hour > 18 then 0.6
                         else if hour < 14 then 1.8 else 1.5;
            EventsThisHour(orgs, load, w, t) == (orgs as real * 60.0 * weekend * ofDay * load(t)).Floor
  {
    NoGrowth(w, t);
    var a, b, c := orgs as real * 60.0, WeekendFactor(t), HourlyMultiplier(t);
    FactorsAtLeast(t);
    AtLeast(a, b, 0.0, 0.0);
    AtLeast(a * b, c, 0.0, 0.0);
    AtLeast(a * b * c, load(t), 0.0, 0.0);
  }
}
