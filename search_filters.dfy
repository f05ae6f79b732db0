/** The search-filter dialog (src/components/chat/SearchFilters.tsx): the
    updaters it hands to `setLocalFilters`, and what Apply and Reset pass on
    to `onChange`. Every updater builds a new value; the dialog's open flag
    is the only other state. */
module SearchFiltersPanel {
  import opened Wrappers

  datatype Scope = All | Recent | Category

  datatype DateRange = DateRange(startDate: Option<string>, endDate: Option<string>)

  datatype SearchFilters = SearchFilters(dateRange: DateRange, categories: seq<string>, searchScope: Scope)

  /** The dialog's state: the filters being edited and whether it is open. */
  datatype Panel = Panel(localFilters: SearchFilters, isOpen: bool)

  /** What a button press leaves behind: the new state and the filters
      passed to `onChange`, if any. */
  datatype Step = Step(panel: Panel, emitted: Option<SearchFilters>)

  /** `value || null` for the value of a date input. */
  function DateInput(value: string): (d: Option<string>)
    ensures d.None? <==> value == ""
    ensures d.Some? ==> d.value == value
  {
    if value == "" then None else Some(value)
  }

  /** `handleStartDateChange`. */
  function SetStartDate(prev: SearchFilters, value: string): (r: SearchFilters)
    ensures r.dateRange.startDate == DateInput(value)
    ensures r.dateRange.endDate == prev.dateRange.endDate
    ensures r.categories == prev.categories && r.searchScope == prev.searchScope
  {
    prev.(dateRange := prev.dateRange.(startDate := DateInput(value)))
  }

  /** `handleEndDateChange`. */
  function SetEndDate(prev: SearchFilters, value: string): (r: SearchFilters)
    ensures r.dateRange.endDate == DateInput(value)
    ensures r.dateRange.startDate == prev.dateRange.startDate
    ensures r.categories == prev.categories && r.searchScope == prev.searchScope
  {
    prev.(dateRange := prev.dateRange.(endDate := DateInput(value)))
  }

  /** `categories.filter(c => c !== category)`. */
  function Without(categories: seq<string>, category: string): (r: seq<string>)
    ensures category !in r && |r| <= |categories|
    ensures forall c :: c in r <==> c in categories && c != category
    ensures forall c :: c != category ==> multiset(r)[c] == multiset(categories)[c]
  {
    if |categories| == 0 then []
    else
      var rest := Without(categories[1..], category);
      assert categories == [categories[0]] + categories[1..];
      if categories[0] == category then rest else [categories[0]] + rest
  }

  /** The filter works piece by piece, so it keeps the order of what it
      keeps. */
  lemma {:induction false} WithoutAppend(a: seq<string>, b: seq<string>, category: string)
    ensures Without(a + b, category) == Without(a, category) + Without(b, category)
  {
    if |a| == 0 {
      assert a + b == b;
    } else {
      assert (a + b)[1..] == a[1..] + b;
      WithoutAppend(a[1..], b, category);
    }
  }

  /** A list without the category is left exactly as it is. */
  lemma {:induction false} WithoutAbsent(categories: seq<string>, category: string)
    requires category !in categories
    ensures Without(categories, category) == categories
  {
    if |categories| > 0 {
      WithoutAbsent(categories[1..], category);
    }
  }

  /** `handleCategoryChange`: a checked box appends the category, even when
      it is already there; an unchecked one removes every copy of it. */
  function ChangeCategory(prev: SearchFilters, category: string, checked: bool): (r: SearchFilters)
    ensures checked ==> r.categories == prev.categories + [category]
    ensures !checked ==> r.categories == Without(prev.categories, category)
    ensures r.dateRange == prev.dateRange && r.searchScope == prev.searchScope
  {
    prev.(categories := if checked then prev.categories + [category] else Without(prev.categories, category))
  }

  /** `handleScopeChange`. */
  function ChangeScope(prev: SearchFilters, scope: Scope): (r: SearchFilters)
    ensures r.searchScope == scope
    ensures r.dateRange == prev.dateRange && r.categories == prev.categories
  {
    prev.(searchScope := scope)
  }

  /** The filters Reset goes back to. */
  const ResetFilters: SearchFilters := SearchFilters(DateRange(None, None), [], All)

  /** `handleApply`: the edited filters go to `onChange` as they are and
      the dialog closes. */
  function Apply(p: Panel): (s: Step)
    ensures s.emitted == Some(p.localFilters)
    ensures s.panel.localFilters == p.localFilters && !s.panel.isOpen
  {
    Step(Panel(p.localFilters, false), Some(p.localFilters))
  }

  /** `handleReset`: the edited filters and `onChange` both get the empty
      filters; the dialog stays as it is. */
  function Reset(p: Panel): (s: Step)
    ensures s.emitted == Some(ResetFilters)
    ensures s.panel.localFilters.dateRange.startDate.None? && s.panel.localFilters.dateRange.endDate.None?
    ensures s.panel.localFilters.categories == [] && s.panel.localFilters.searchScope == All
    ensures s.panel.isOpen == p.isOpen
  {
    Step(Panel(ResetFilters, p.isOpen), Some(ResetFilters))
  }

  /** Checking a category and unchecking it again removes it altogether:
      a category that was not there before leaves the list as it was, one
      that was there is gone with all its copies. */
  lemma {:induction false} CheckThenUncheck(prev: SearchFilters, category: string)
    ensures ChangeCategory(ChangeCategory(prev, category, true), category, false).categories
              == Without(prev.categories, category)
    ensures category !in prev.categories ==>
              ChangeCategory(ChangeCategory(prev, category, true), category, false) == prev
  {
    WithoutAppend(prev.categories, [category], category);
    assert Without([category], category) == [] by {
      assert [category][1..] == [];
    }
    assert Without(prev.categories, category) + [] == Without(prev.categories, category);
    if category !in prev.categories {
      WithoutAbsent(prev.categories, category);
    }
  }
}
