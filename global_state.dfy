/**
 * The client's global UI state of client/src/state/index.ts: the search filters, whether
 * the full filter panel is open, and the listing's view mode, with the three reducers
 * that change them in place.
 */
module GlobalState {
  import opened Options

  /** A `[min, max]` pair whose ends may be `null`. */
  datatype Range = Range(lo: Option<int>, hi: Option<int>)

  const NoRange := Range(None, None)

  datatype FilterState = FilterState(
    location: string,
    beds: string,
    baths: string,
    propertyType: string,
    amenities: seq<string>,
    availableFrom: string,
    priceRange: Range,
    squareFeetRange: Range,
    coordinates: (real, real))

  /** A `Partial<FilterState>` payload: `None` is a key the payload does not have. */
  datatype FilterPatch = FilterPatch(
    location: Option<string>,
    beds: Option<string>,
    baths: Option<string>,
    propertyType: Option<string>,
    amenities: Option<seq<string>>,
    availableFrom: Option<string>,
    priceRange: Option<Range>,
    squareFeetRange: Option<Range>,
    coordinates: Option<(real, real)>)

  const EmptyPatch := FilterPatch(None, None, None, None, None, None, None, None, None)

  /** The value a key ends up with: the payload's when it has the key. */
  function Pick<T>(current: T, update: Option<T>): (r: T)
    ensures update.Some? ==> r == update.value
    ensures update.None? ==> r == current
  {
    if update.Some? then update.value else current
  }

  /**
   * `{ ...filters, ...patch }`: the payload's keys, and only they, change. Every key of
   * the payload takes the payload's value and every other key keeps its value.
   */
  function Merge(f: FilterState, p: FilterPatch): (r: FilterState)
    ensures (p.location.Some? ==> r.location == p.location.value) && (p.location.None? ==> r.location == f.location)
    ensures (p.beds.Some? ==> r.beds == p.beds.value) && (p.beds.None? ==> r.beds == f.beds)
    ensures (p.baths.Some? ==> r.baths == p.baths.value) && (p.baths.None? ==> r.baths == f.baths)
    ensures (p.propertyType.Some? ==> r.propertyType == p.propertyType.value)
            && (p.propertyType.None? ==> r.propertyType == f.propertyType)
    ensures (p.amenities.Some? ==> r.amenities == p.amenities.value) && (p.amenities.None? ==> r.amenities == f.amenities)
    ensures (p.availableFrom.Some? ==> r.availableFrom == p.availableFrom.value)
            && (p.availableFrom.None? ==> r.availableFrom == f.availableFrom)
    ensures (p.priceRange.Some? ==> r.priceRange == p.priceRange.value) && (p.priceRange.None? ==> r.priceRange == f.priceRange)
    ensures (p.squareFeetRange.Some? ==> r.squareFeetRange == p.squareFeetRange.value)
            && (p.squareFeetRange.None? ==> r.squareFeetRange == f.squareFeetRange)
    ensures (p.coordinates.Some? ==> r.coordinates == p.coordinates.value)
            && (p.coordinates.None? ==> r.coordinates == f.coordinates)
  {
    FilterState(
      Pick(f.location, p.location),
      Pick(f.beds, p.beds),
      Pick(f.baths, p.baths),
      Pick(f.propertyType, p.propertyType),
      Pick(f.amenities, p.amenities),
      Pick(f.availableFrom, p.availableFrom),
      Pick(f.priceRange, p.priceRange),
      Pick(f.squareFeetRange, p.squareFeetRange),
      Pick(f.coordinates, p.coordinates))
  }

  /** The keys of `later` win over those of `earlier`: two spreads in a row as one payload. */
  function Then(earlier: FilterPatch, later: FilterPatch): FilterPatch
  {
    FilterPatch(
      if later.location.Some? then later.location else earlier.location,
      if later.beds.Some? then later.beds else earlier.beds,
      if later.baths.Some? then later.baths else earlier.baths,
      if later.propertyType.Some? then later.propertyType else earlier.propertyType,
      if later.amenities.Some? then later.amenities else earlier.amenities,
      if later.availableFrom.Some? then later.availableFrom else earlier.availableFrom,
      if later.priceRange.Some? then later.priceRange else earlier.priceRange,
      if later.squareFeetRange.Some? then later.squareFeetRange else earlier.squareFeetRange,
      if later.coordinates.Some? then later.coordinates else earlier.coordinates)
  }

  /** An empty payload changes nothing. */
  lemma MergeEmpty(f: FilterState)
    ensures Merge(f, EmptyPatch) == f
  {
  }

  /** Applying the same payload twice is applying it once. */
  lemma MergeIdempotent(f: FilterState, p: FilterPatch)
    ensures Merge(Merge(f, p), p) == Merge(f, p)
  {
  }

  /** Two payloads in a row are one payload where the later keys win. */
  lemma MergeThen(f: FilterState, p: FilterPatch, q: FilterPatch)
    ensures Merge(Merge(f, p), q) == Merge(f, Then(p, q))
  {
  }

  datatype ViewMode = Grid | List

  /** The filters the search page starts from. */
  const InitialFilters := FilterState("Los Angeles", "any", "any", "any", [], "", NoRange, NoRange, (-118.25, 34.05))

  /** The `global` slice of the client's store. */
  class GlobalState {
    var isFiltersFullOpen: bool
    var filters: FilterState
    var viewMode: ViewMode

    /** `initialState`. */
    constructor ()
      ensures !isFiltersFullOpen && filters == InitialFilters && viewMode == Grid
    {
      isFiltersFullOpen := false;
      filters := InitialFilters;
      viewMode := Grid;
    }

    /** `setFilters`: the payload spread over the current filters. */
    method SetFilters(payload: FilterPatch)
      modifies this
      ensures filters == Merge(old(filters), payload)
      ensures isFiltersFullOpen == old(isFiltersFullOpen) && viewMode == old(viewMode)
    {
      filters := Merge(filters, payload);
    }

    /** `toggleFiltersFullOpen`. */
    method ToggleFiltersFullOpen()
      modifies this
      ensures isFiltersFullOpen == !old(isFiltersFullOpen)
      ensures filters == old(filters) && viewMode == old(viewMode)
    {
      isFiltersFullOpen := !isFiltersFullOpen;
    }

    /** `setViewMode`. */
    method SetViewMode(mode: ViewMode)
      modifies this
      ensures viewMode == mode
      ensures filters == old(filters) && isFiltersFullOpen == old(isFiltersFullOpen)
    {
      viewMode := mode;
    }
  }

  /** Toggling the filter panel twice leaves the whole state as it was. */
  method ToggleTwice(s: GlobalState)
    modifies s
    ensures s.isFiltersFullOpen == old(s.isFiltersFullOpen)
    ensures s.filters == old(s.filters) && s.viewMode == old(s.viewMode)
  {
    s.ToggleFiltersFullOpen();
    s.ToggleFiltersFullOpen();
  }

  /** Setting the same filters twice leaves the state as setting them once. */
  method SetFiltersTwice(s: GlobalState, payload: FilterPatch)
    modifies s
    ensures s.filters == Merge(old(s.filters), payload)
    ensures s.isFiltersFullOpen == old(s.isFiltersFullOpen) && s.viewMode == old(s.viewMode)
  {
    s.SetFilters(payload);
    s.SetFilters(payload);
    MergeIdempotent(old(s.filters), payload);
  }
}
