/** The filter panel's state: two slider ranges and two checkbox lists. The
    panel keeps its own state; nothing reads it to filter results. */
module SearchFilters {

  datatype Filters = Filters(
    priceRange: seq<int>,
    stops: seq<string>,
    airlines: seq<string>,
    durationRange: seq<int>)

  const InitialFilters: Filters := Filters([100, 2000], [], [], [2, 24])

  /** `xs.filter(x => x !== id)`. */
  function Without(xs: seq<string>, id: string): (r: seq<string>)
    ensures forall y :: y in r <==> y in xs && y != id
    ensures forall y :: y != id ==> multiset(r)[y] == multiset(xs)[y]
    ensures |r| <= |xs|
  {
    if xs == [] then []
    else
      assert xs == [xs[0]] + xs[1..];
      (if xs[0] == id then [] else [xs[0]]) + Without(xs[1..], id)
  }

  /** Filtering distributes over concatenation: the kept entries keep their
      relative order. */
  lemma {:induction false} WithoutAppend(xs: seq<string>, ys: seq<string>, id: string)
    ensures Without(xs + ys, id) == Without(xs, id) + Without(ys, id)
    decreases |xs|
  {
    if xs == [] {
      assert xs + ys == ys;
    } else {
      assert (xs + ys)[1..] == xs[1..] + ys;
      WithoutAppend(xs[1..], ys, id);
    }
  }

  /** Filtering out an absent id changes nothing. */
  lemma {:induction false} WithoutAbsent(xs: seq<string>, id: string)
    requires id !in xs
    ensures Without(xs, id) == xs
    decreases |xs|
  {
    if xs != [] {
      WithoutAbsent(xs[1..], id);
      assert xs == [xs[0]] + xs[1..];
    }
  }

  /** One checkbox change: checking appends the id, unchecking removes every
      occurrence of it. */
  function Toggle(xs: seq<string>, id: string, checked: bool): (r: seq<string>)
    ensures checked ==> |r| == |xs| + 1 && r[..|xs|] == xs && r[|xs|] == id
    ensures !checked ==> id !in r && (forall y :: y != id ==> multiset(r)[y] == multiset(xs)[y])
    ensures checked <==> id in r
  {
    if checked then xs + [id] else Without(xs, id)
  }

  /** Checking an id that was not listed and then unchecking it restores
      the list. */
  lemma CheckThenUncheck(xs: seq<string>, id: string)
    requires id !in xs
    ensures Toggle(Toggle(xs, id, true), id, false) == xs
  {
    WithoutAppend(xs, [id], id);
    WithoutAbsent(xs, id);
    assert Without([id], id) == [];
  }

  /** Unchecking twice is unchecking once. */
  lemma UncheckIdempotent(xs: seq<string>, id: string)
    ensures Toggle(Toggle(xs, id, false), id, false) == Toggle(xs, id, false)
  {
    WithoutAbsent(Without(xs, id), id);
  }

  /** `handleStopChange`: only the stop list changes. */
  function HandleStopChange(f: Filters, id: string, checked: bool): (g: Filters)
    ensures g.(stops := f.stops) == f
    ensures g.stops == Toggle(f.stops, id, checked)
  {
    f.(stops := Toggle(f.stops, id, checked))
  }

  /** `handleAirlineChange`: only the airline list changes. */
  function HandleAirlineChange(f: Filters, id: string, checked: bool): (g: Filters)
    ensures g.(airlines := f.airlines) == f
    ensures g.airlines == Toggle(f.airlines, id, checked)
  {
    f.(airlines := Toggle(f.airlines, id, checked))
  }

  /** The two slider handlers store the slider's value as given. */
  function SlidePrice(f: Filters, v: seq<int>): (g: Filters)
    ensures g.priceRange == v
    ensures g.(priceRange := f.priceRange) == f
  {
    f.(priceRange := v)
  }

  function SlideDuration(f: Filters, v: seq<int>): (g: Filters)
    ensures g.durationRange == v
    ensures g.(durationRange := f.durationRange) == f
  {
    f.(durationRange := v)
  }

  /** `resetFilters`. */
  function ResetFilters(f: Filters): (g: Filters)
    ensures g.priceRange == [100, 2000] && g.durationRange == [2, 24]
    ensures g.stops == [] && g.airlines == []
  {
    InitialFilters
  }

  /** Reset brings back the initial panel from any state, so resetting twice
      is resetting once. */
  lemma ResetRestoresInitial(f: Filters)
    ensures ResetFilters(f) == InitialFilters
    ensures ResetFilters(ResetFilters(f)) == ResetFilters(f)
  {
  }
}
