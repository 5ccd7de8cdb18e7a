/** The chip selector (client/src/components/ChipSelector.tsx): which chips show as
    selected, and the new selection a click hands to `onChange`. */
module ChipSelector {

  /** The `selected` prop: a single string, or an array in multi-select mode. */
  datatype Selection = Single(value: string) | Multi(values: seq<string>)

  /** `isSelected` (lines 18-26). */
  predicate IsSelected(sel: Selection, option: string) {
    match sel
    case Single(v) => v == option
    case Multi(vs) => option in vs
  }

  /** `currentSelected.filter((item) => item !== option)`. */
  function Without(xs: seq<string>, option: string): (r: seq<string>)
    ensures option !in r
    ensures forall x :: x in r <==> x in xs && x != option
    ensures forall x :: x != option ==> multiset(r)[x] == multiset(xs)[x]
  {
    if xs == [] then []
    else
      assert xs == [xs[0]] + xs[1..];
      if xs[0] == option then Without(xs[1..], option)
      else [xs[0]] + Without(xs[1..], option)
  }

  /** `handleClick` (lines 28-42): the value passed to `onChange`. */
  function HandleClick(sel: Selection, option: string): (r: Selection)
    ensures r.Single? <==> sel.Single?
    ensures sel.Single? ==> (r.value == "" <==> sel.value == option || option == "")
    ensures sel.Multi? && option in sel.values ==> r.values == Without(sel.values, option)
    ensures sel.Multi? && option !in sel.values ==> r.values == sel.values + [option]
  {
    match sel
    case Single(v) => Single(if v == option then "" else option)
    case Multi(vs) => Multi(if option in vs then Without(vs, option) else vs + [option])
  }

  /** Filtering distributes over concatenation, so the kept items stay in order. */
  lemma {:induction false} WithoutAppend(a: seq<string>, b: seq<string>, option: string)
    ensures Without(a + b, option) == Without(a, option) + Without(b, option)
  {
    if a == [] {
      assert a + b == b;
    } else {
      assert (a + b)[1..] == a[1..] + b;
      WithoutAppend(a[1..], b, option);
    }
  }

  /** Filtering out an absent item changes nothing. */
  lemma {:induction false} WithoutAbsent(xs: seq<string>, option: string)
    requires option !in xs
    ensures Without(xs, option) == xs
  {
    if xs != [] {
      WithoutAbsent(xs[1..], option);
    }
  }

  /** A click flips whether the clicked chip shows as selected (in single-select
      mode, for any option but the empty string, which means "nothing selected"). */
  lemma ClickFlipsSelected(sel: Selection, option: string)
    requires sel.Single? ==> option != ""
    ensures IsSelected(HandleClick(sel, option), option) == !IsSelected(sel, option)
  {
  }

  /** Clicking an absent chip twice restores the original list. */
  lemma ClickTwiceRestores(vs: seq<string>, option: string)
    requires option !in vs
    ensures HandleClick(HandleClick(Multi(vs), option), option) == Multi(vs)
  {
    WithoutAppend(vs, [option], option);
    WithoutAbsent(vs, option);
  }

  predicate NoDuplicates(xs: seq<string>) {
    forall i, j :: 0 <= i < j < |xs| ==> xs[i] != xs[j]
  }

  /** Filtering keeps a list free of duplicates. */
  lemma {:induction false} WithoutNoDuplicates(xs: seq<string>, option: string)
    requires NoDuplicates(xs)
    ensures NoDuplicates(Without(xs, option))
  {
    if xs != [] {
      WithoutNoDuplicates(xs[1..], option);
      if xs[0] != option {
        assert xs[0] !in xs[1..];
        assert xs[0] !in Without(xs[1..], option);
      }
    }
  }

  /** A multi-select list without duplicates stays without duplicates. */
  lemma ClickKeepsNoDuplicates(vs: seq<string>, option: string)
    requires NoDuplicates(vs)
    ensures NoDuplicates(HandleClick(Multi(vs), option).values)
  {
    if option in vs {
      WithoutNoDuplicates(vs, option);
    }
  }

  /** Every part of the selection is one of the options (or nothing is selected). */
  predicate WithinOptions(sel: Selection, options: seq<string>) {
    match sel
    case Single(v) => v == "" || v in options
    case Multi(vs) => forall x :: x in vs ==> x in options
  }

  /** The chips only pass their own options, so a selection within the options
      stays within them. */
  lemma ClickStaysWithinOptions(sel: Selection, options: seq<string>, option: string)
    requires WithinOptions(sel, options) && option in options
    ensures WithinOptions(HandleClick(sel, option), options)
  {
  }
}
