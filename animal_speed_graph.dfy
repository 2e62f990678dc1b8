/**
 * The arithmetic of the animal-speed bar chart: row defaults, canvas size and
 * margins, the y-axis ceiling, x-axis tick thinning and the legend.
 */
module AnimalSpeedGraph {
  import opened Optional
  import opened Text

  /** A CSV row as loaded; `speed` is the parsed number, `None` when missing or not a number. */
  datatype CsvRow = CsvRow(name: Option<string>, speed: Option<int>, diet: Option<string>)

  datatype AnimalDatum = AnimalDatum(name: string, speed: int, diet: string)

  /** One row's defaults: a missing name is empty, a missing speed 0, the diet lowercased. */
  function ToDatum(row: CsvRow): (d: AnimalDatum)
    ensures row.name.Some? ==> d.name == row.name.value
    ensures row.name.None? ==> d.name == []
    ensures row.speed.Some? ==> d.speed == row.speed.value
    ensures row.speed.None? ==> d.speed == 0
    ensures IsLower(d.diet) && |d.diet| == |row.diet.GetOr([])|
    ensures row.diet.None? ==> d.diet == []
    ensures row.diet.Some? ==> d.diet == Lower(row.diet.value)
  {
    LowerIdempotent(row.diet.GetOr([]));
    AnimalDatum(row.name.GetOr([]), row.speed.GetOr(0), Lower(row.diet.GetOr([])))
  }

  function ToData(rows: seq<CsvRow>): (data: seq<AnimalDatum>)
    ensures |data| == |rows|
    ensures forall i :: 0 <= i < |rows| ==> data[i] == ToDatum(rows[i])
  {
    seq(|rows|, i requires 0 <= i < |rows| => ToDatum(rows[i]))
  }

  /** The drawing effect does nothing without a container or without data, and draws otherwise. */
  function ShouldDraw(hasContainer: bool, data: seq<AnimalDatum>): (draw: bool)
    ensures data == [] ==> !draw
    ensures !hasContainer ==> !draw
    ensures hasContainer && data != [] ==> draw
  {
    hasContainer && |data| > 0
  }

  const MarginTop := 70
  const MarginRight := 120
  const MarginBottom := 120
  const MarginLeft := 80
  const MinWidth := 600
  const MinHeight := 400

  datatype Layout = Layout(width: int, height: int, innerWidth: int, innerHeight: int)

  function Max(a: int, b: int): int {
    if a >= b then a else b
  }

  /** The canvas: the container's size (800 by 500 when unknown), at least 600 by 400, less the margins. */
  function ComputeLayout(clientWidth: Option<int>, clientHeight: Option<int>): (l: Layout)
    ensures l.width >= MinWidth && l.height >= MinHeight
    ensures l.width >= clientWidth.GetOr(800) && l.height >= clientHeight.GetOr(500)
    ensures l.width == MinWidth || l.width == clientWidth.GetOr(800)
    ensures l.height == MinHeight || l.height == clientHeight.GetOr(500)
    ensures l.innerWidth == l.width - 200 && l.innerWidth >= 400
    ensures l.innerHeight == l.height - 190 && l.innerHeight >= 210
  {
    var width := Max(clientWidth.GetOr(800), MinWidth);
    var height := Max(clientHeight.GetOr(500), MinHeight);
    Layout(width, height, width - MarginLeft - MarginRight, height - MarginTop - MarginBottom)
  }

  /** The fastest speed (d3's `max`), `None` for no data. */
  function MaxSpeed(data: seq<AnimalDatum>): (m: Option<int>)
    ensures m.None? <==> data == []
    ensures m.Some? ==> forall i :: 0 <= i < |data| ==> data[i].speed <= m.value
    ensures m.Some? ==> exists i :: 0 <= i < |data| && data[i].speed == m.value
  {
    if data == [] then None
    else
      var rest := MaxSpeed(data[1..]);
      if rest.None? || data[0].speed >= rest.value then Some(data[0].speed)
      else
        assert forall i :: 1 <= i < |data| ==> data[i] == data[1..][i - 1];
        var j :| 0 <= j < |data[1..]| && data[1..][j].speed == rest.value;
        assert data[j + 1].speed == rest.value;
        rest
  }

  /** `Math.ceil(x / 10) * 10`. */
  function CeilToTen(x: int): (r: int)
    ensures r % 10 == 0
    ensures x <= r < x + 10
  {
    -((-x) / 10) * 10
  }

  /** The y-domain's upper end: the maximum speed (120 without data) rounded up to a multiple of ten. */
  function YDomainTop(data: seq<AnimalDatum>): (top: int)
    ensures top % 10 == 0
    ensures forall i :: 0 <= i < |data| ==> data[i].speed <= top
    ensures data != [] ==> exists i :: 0 <= i < |data| && top < data[i].speed + 10
    ensures data == [] ==> top == 120
  {
    CeilToTen(MaxSpeed(data).GetOr(120))
  }

  /** Every how many-th name gets an x-axis label: one in `n / 25`, at least every one. */
  function TickStep(n: nat): (step: nat)
    ensures step >= 1
    ensures step == 1 <==> n < 50
    ensures step <= n || n < 25
    ensures n >= 25 ==> step * 25 <= n < (step + 1) * 25
  {
    Max(1, n / 25)
  }

  /** `domain.filter((_, i) => i % step === 0)`, over the indices from `from` on. */
  function FilterByIndex(domain: seq<string>, step: nat, from: nat): seq<string>
    requires step >= 1
    decreases |domain| - from
  {
    if from >= |domain| then []
    else (if from % step == 0 then [domain[from]] else []) + FilterByIndex(domain, step, from + 1)
  }

  /** The names at `from`, `from + step`, `from + 2 * step`, ... */
  function Strided(domain: seq<string>, step: nat, from: nat): seq<string>
    requires step >= 1
    decreases |domain| - from
  {
    if from >= |domain| then [] else [domain[from]] + Strided(domain, step, from + step)
  }

  /** The x-axis labels. */
  function TickValues(domain: seq<string>): seq<string> {
    FilterByIndex(domain, TickStep(|domain|), 0)
  }

  lemma ScaledAtLeast(step: int, k: int)
    requires step >= 1 && k >= 1
    ensures step * k >= step
  {
  }

  lemma ModOfOffset(q: int, step: int, i: int)
    requires step >= 1 && 0 <= i < step
    ensures (q * step + i) % step == i
  {
    var x := q * step + i;
    var d := x / step;
    assert x == step * d + x % step;
    assert step * (q - d) == x % step - i;
    if q - d >= 1 {
      ScaledAtLeast(step, q - d);
    } else if q - d <= -1 {
      ScaledAtLeast(step, d - q);
    }
  }

  /** Between two multiples of `step` the filter keeps nothing. */
  lemma {:induction false} FilterSkips(domain: seq<string>, step: nat, q: nat, i: nat)
    requires step >= 1 && 1 <= i <= step
    ensures FilterByIndex(domain, step, q * step + i) == FilterByIndex(domain, step, q * step + step)
    decreases step - i
  {
    if i < step {
      ModOfOffset(q, step, i);
      FilterSkips(domain, step, q, i + 1);
    }
  }

  /** Filtering by index from a multiple of `step` picks every `step`-th name. */
  lemma {:induction false} FilterIsStrided(domain: seq<string>, step: nat, q: nat)
    requires step >= 1
    ensures FilterByIndex(domain, step, q * step) == Strided(domain, step, q * step)
    decreases |domain| - q * step
  {
    if q * step < |domain| {
      ModOfOffset(q, step, 0);
      FilterSkips(domain, step, q, 1);
      assert q * step + step == (q + 1) * step;
      FilterIsStrided(domain, step, q + 1);
    }
  }

  lemma {:induction false} StridedShape(domain: seq<string>, step: nat, from: nat)
    requires step >= 1 && from <= |domain|
    ensures var r := Strided(domain, step, from);
      && (|r| - 1) * step < |domain| - from <= |r| * step
      && forall k :: 0 <= k < |r| ==> from + k * step < |domain| && r[k] == domain[from + k * step]
    decreases |domain| - from
  {
    var r := Strided(domain, step, from);
    if from < |domain| {
      if from + step <= |domain| {
        StridedShape(domain, step, from + step);
      }
      var rest := Strided(domain, step, from + step);
      assert r == [domain[from]] + rest;
      assert (|r| - 1) * step == |rest| * step;
      assert |r| * step == |rest| * step + step;
      forall k | 0 <= k < |r|
        ensures from + k * step < |domain| && r[k] == domain[from + k * step]
      {
        if k > 0 {
          assert r[k] == rest[k - 1];
          assert from + k * step == (from + step) + (k - 1) * step;
        }
      }
    }
  }

  /**
   * The labels are the names at indices 0, step, 2 * step, ... in order; the
   * first name is always labelled, and there are ceil(n / step) of them.
   */
  lemma TickValuesShape(domain: seq<string>)
    ensures var step, r := TickStep(|domain|), TickValues(domain);
      && (|r| - 1) * step < |domain| <= |r| * step
      && |r| <= |domain|
      && (|domain| > 0 ==> |r| >= 1 && r[0] == domain[0])
      && forall k :: 0 <= k < |r| ==> k * step < |domain| && r[k] == domain[k * step]
  {
    var step := TickStep(|domain|);
    FilterIsStrided(domain, step, 0);
    StridedShape(domain, step, 0);
    var r := Strided(domain, step, 0);
    assert TickValues(domain) == r;
    if |r| > 0 {
      NoMoreThanScaled(|r| - 1, step);
      assert 0 * step == 0;
    }
  }

  lemma NoMoreThanScaled(a: nat, step: nat)
    requires step >= 1
    ensures a <= a * step
  {
  }

  /** `DIET_COLORS`. */
  const DietColors: map<string, string> :=
    map["herbivore" := "#22c55e", "carnivore" := "#f97316", "omnivore" := "#eab308"]

  /** The ordinal colour scale's domain and range, index for index. */
  const ColorDomain: seq<string> := ["herbivore", "omnivore", "carnivore"]
  const ColorRange: seq<string> := ["#22c55e", "#eab308", "#f97316"]

  /** A bar's fill for a known diet; unknown diets are not modelled (`None`). */
  function BarColor(diet: string): (c: Option<string>)
    ensures c.Some? <==> diet in ColorDomain
  {
    if diet == ColorDomain[0] then Some(ColorRange[0])
    else if diet == ColorDomain[1] then Some(ColorRange[1])
    else if diet == ColorDomain[2] then Some(ColorRange[2])
    else None
  }

  /** Bars and legend agree: each known diet is filled with its `DIET_COLORS` entry. */
  lemma BarColorMatchesDietColors(diet: string)
    requires diet in DietColors
    ensures BarColor(diet) == Some(DietColors[diet])
  {
  }

  const LegendLabels: seq<string> := ["Herbivore", "Omnivore", "Carnivore"]
  const LegendRowHeight := 22

  datatype LegendRow = LegendRow(caption: string, offsetY: int, color: string)

  /** The legend's rows, top to bottom. */
  function Legend(): (rows: seq<LegendRow>)
    ensures |rows| == 3
    ensures rows[0].caption == "Herbivore" && rows[1].caption == "Omnivore" && rows[2].caption == "Carnivore"
    ensures forall i :: 0 <= i < 3 ==> rows[i].offsetY == LegendRowHeight * i
    ensures forall i :: 0 <= i < 3 ==> BarColor(Lower(rows[i].caption)) == Some(rows[i].color)
  {
    assert Lower("Herbivore") == "herbivore";
    assert Lower("Omnivore") == "omnivore";
    assert Lower("Carnivore") == "carnivore";
    seq(3, i requires 0 <= i < 3 =>
      LegendRow(LegendLabels[i], LegendRowHeight * i, DietColors[Lower(LegendLabels[i])]))
  }

  /** The legend's top-left corner: 90 to the left of the right margin, level with the plot's top. */
  function LegendOrigin(l: Layout): (origin: (int, int))
    ensures origin.0 + 90 + MarginRight == l.width
    ensures origin.1 == MarginTop
    ensures l.width >= MinWidth ==> origin.0 >= MinWidth - 210
  {
    (l.width - MarginRight - 90, MarginTop)
  }
}
