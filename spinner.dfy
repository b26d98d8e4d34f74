/**
 * The two deterministic helpers of the spinner: the colours of the wheel's
 * segments, and the weighted choice of the next task. The random number
 * generator is a parameter: `choose` stands for `random.choices`, given the
 * weight list, picking one index of it.
 */
module Spinner {
  import opened Wrappers
  import opened Seqs
  import opened Tables

  /** A CSS colour: a fixed hex code, or `hsl(hue, saturation%, lightness%)`. */
  datatype Color = Hex(code: string) | Hsl(hue: real, saturation: nat, lightness: nat)

  const Palette: seq<Color> := [
    Hex("#10b981"), Hex("#3b82f6"), Hex("#8b5cf6"), Hex("#ec4899"),
    Hex("#f59e0b"), Hex("#06b6d4"), Hex("#84cc16"), Hex("#f97316"),
    Hex("#14b8a6"), Hex("#6366f1"), Hex("#a855f7"), Hex("#e11d48")
  ]

  /** `base_colors[:n]`; a negative `n` counts from the end, as Python slices do. */
  function PalettePrefix(n: int): (r: seq<Color>)
    requires n <= |Palette|
    ensures 0 <= n ==> |r| == n
    ensures |r| <= |Palette| && r == Palette[..|r|]
  {
    if n >= 0 then Palette[..n]
    else if |Palette| + n >= 0 then Palette[..|Palette| + n]
    else []
  }

  /** `(i * 360 / n) % 360`: for `0 <= i < n` the quotient is already below 360. */
  function Hue(i: int, n: int): (h: real)
    requires 0 <= i < n
    ensures 0.0 <= h < 360.0
  {
    (i * 360) as real / n as real
  }

  /** Segments further round the wheel get larger hues. */
  lemma HueIncreases(i: int, j: int, n: int)
    requires 0 <= i < j < n
    ensures Hue(i, n) < Hue(j, n)
  {
    var d := n as real;
    assert Hue(i, n) * d == (i * 360) as real;
    assert Hue(j, n) * d == (j * 360) as real;
    assert (i * 360) as real < (j * 360) as real;
  }

  lemma PaletteDistinct()
    ensures Distinct(Palette)
  {
  }

  /**
   * `generate_colors(n)`: up to twelve segments take the fixed palette in
   * order; more segments take `n` colours spaced evenly round the hue
   * circle at 70% saturation and 50% lightness. No two segments share a
   * colour.
   */
  method GenerateColors(n: int) returns (colors: seq<Color>)
    ensures n <= |Palette| ==> colors == PalettePrefix(n)
    ensures n > |Palette| ==> |colors| == n && forall i :: 0 <= i < n ==> colors[i] == Hsl(Hue(i, n), 70, 50)
    ensures Distinct(colors)
  {
    if n <= |Palette| {
      PaletteDistinct();
      colors := PalettePrefix(n);
      return;
    }
    colors := [];
    for i := 0 to n
      invariant |colors| == i
      invariant forall k :: 0 <= k < i ==> colors[k] == Hsl(Hue(k, n), 70, 50)
    {
      colors := colors + [Hsl(Hue(i, n), 70, 50)];
    }
    forall a, b | 0 <= a < b < n ensures colors[a] != colors[b] {
      HueIncreases(a, b, n);
    }
  }

  /** `[task['priority'] for task in tasks]`. */
  function Weights(tasks: seq<Task>): (w: seq<int>)
    ensures |w| == |tasks|
    ensures forall i :: 0 <= i < |tasks| ==> w[i] == tasks[i].priority
  {
    seq(|tasks|, i requires 0 <= i < |tasks| => tasks[i].priority)
  }

  /**
   * `select_random_task`: nothing for an empty list; otherwise the task at
   * the index the generator draws against the priorities, which is always
   * one of the given tasks.
   */
  function SelectRandomTask(tasks: seq<Task>, choose: seq<int> -> int): (r: Option<Task>)
    requires forall w :: |w| > 0 ==> 0 <= choose(w) < |w|
    ensures r == None <==> tasks == []
    ensures r.Some? ==> r.value in tasks && r.value == tasks[choose(Weights(tasks))]
  {
    if tasks == [] then None
    else
      var weights := Weights(tasks);
      Some(tasks[choose(weights)])
  }
}
