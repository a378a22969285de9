/**
 * The property search of server/src/controllers/property-controllers.ts: the query string
 * is turned into a list of conditions, one per criterion that is present, and the rows
 * returned are those that meet all of them. Also the parsing of the list and flag fields
 * of a new listing.
 */
module PropertyControllers {
  import opened Options
  import opened Text
  import opened Calendar
  import opened Entities

  /** The query-string values `getProperties` reads; `None` is a parameter that is absent. */
  datatype SearchQuery = SearchQuery(
    favoriteIds: Option<string>,
    priceMin: Option<string>,
    priceMax: Option<string>,
    beds: Option<string>,
    baths: Option<string>,
    propertyType: Option<string>,
    squareFeetMin: Option<string>,
    squareFeetMax: Option<string>,
    amenities: Option<string>,
    availableFrom: Option<string>)

  /** The query without any parameter. */
  const EmptyQuery := SearchQuery(None, None, None, None, None, None, None, None, None, None)

  /** A query parameter that is truthy: present and not the empty string. */
  predicate Present(v: Option<string>)
  {
    v.Some? && v.value != ""
  }

  /** A truthy parameter that is not the `'any'` sentinel. */
  predicate Constrains(v: Option<string>)
  {
    Present(v) && v.value != "any"
  }

  /** One condition of the WHERE clause. */
  datatype Predicate =
    | IdIn(ids: seq<Num>)
    | PriceAtLeast(bound: Num)
    | PriceAtMost(bound: Num)
    | BedsAtLeast(bound: Num)
    | BathsAtLeast(bound: Num)
    | SquareFeetAtLeast(bound: Num)
    | SquareFeetAtMost(bound: Num)
    | TypeIs(propertyType: string)
    | HasAmenities(required: seq<string>)
    | LeaseStartsFrom(date: Date)

  /** `x >= bound`; no number compares with NaN. */
  predicate NotBelow(x: int, bound: Num)
  {
    bound.Finite? && x >= bound.value
  }

  /** `x <= bound`; no number compares with NaN. */
  predicate NotAbove(x: int, bound: Num)
  {
    bound.Finite? && x <= bound.value
  }

  /** Some lease of property `id` starts on `date` or later. */
  predicate HasLeaseFrom(leases: seq<Lease>, id: int, date: Date)
  {
    exists l :: l in leases && l.propertyId == id && AtOrAfter(l.startDate, date)
  }

  /** What a condition means for one property, given the lease table. */
  predicate Holds(c: Predicate, p: Property, leases: seq<Lease>)
  {
    match c
    case IdIn(ids) => Finite(p.id) in ids
    case PriceAtLeast(b) => NotBelow(p.pricePerMonth, b)
    case PriceAtMost(b) => NotAbove(p.pricePerMonth, b)
    case BedsAtLeast(b) => NotBelow(p.beds, b)
    case BathsAtLeast(b) => NotBelow(p.baths, b)
    case SquareFeetAtLeast(b) => NotBelow(p.squareFeet, b)
    case SquareFeetAtMost(b) => NotAbove(p.squareFeet, b)
    case TypeIs(t) => p.propertyType == t
    case HasAmenities(required) => forall a :: a in required ==> a in p.amenities
    case LeaseStartsFrom(date) => HasLeaseFrom(leases, p.id, date)
  }

  /** The conditions joined with AND. */
  predicate HoldsAll(conds: seq<Predicate>, p: Property, leases: seq<Lease>)
  {
    forall i :: 0 <= i < |conds| ==> Holds(conds[i], p, leases)
  }

  /** `s.split(',').map(Number)`. */
  function Numbers(parts: seq<string>): (ns: seq<Num>)
    ensures |ns| == |parts|
    ensures forall i :: 0 <= i < |parts| ==> ns[i] == Number(parts[i])
  {
    seq(|parts|, i requires 0 <= i < |parts| => Number(parts[i]))
  }

  /** The text of a parameter, `""` when it is absent. */
  function ParamText(v: Option<string>): string
  {
    if v.Some? then v.value else ""
  }

  /** The date `availableFrom` names, when it is present and a valid date. */
  function AvailableFrom(q: SearchQuery, parseDate: string -> Option<Date>): Option<Date>
  {
    if Present(q.availableFrom) then parseDate(ParamText(q.availableFrom)) else None
  }

  /** One `if` of the handler: whether it pushes, and the condition it would push. */
  datatype Candidate = Candidate(pushed: bool, condition: Predicate)

  /** Whether the handler's `k`-th `if` (in the order it runs them) succeeds. */
  predicate Guard(q: SearchQuery, parseDate: string -> Option<Date>, k: nat)
    requires k < 10
  {
    if k == 0 then Present(q.favoriteIds)
    else if k == 1 then Present(q.priceMin)
    else if k == 2 then Present(q.priceMax)
    else if k == 3 then Constrains(q.beds)
    else if k == 4 then Constrains(q.baths)
    else if k == 5 then Present(q.squareFeetMin)
    else if k == 6 then Present(q.squareFeetMax)
    else if k == 7 then Constrains(q.propertyType)
    else if k == 8 then Present(q.amenities)
    else AvailableFrom(q, parseDate).Some?
  }

  /** The condition the handler's `k`-th `if` pushes when it succeeds. */
  function ConditionAt(q: SearchQuery, parseDate: string -> Option<Date>, k: nat): Predicate
    requires k < 10
  {
    if k == 0 then IdIn(Numbers(Split(ParamText(q.favoriteIds), ',')))
    else if k == 1 then PriceAtLeast(Number(ParamText(q.priceMin)))
    else if k == 2 then PriceAtMost(Number(ParamText(q.priceMax)))
    else if k == 3 then BedsAtLeast(Number(ParamText(q.beds)))
    else if k == 4 then BathsAtLeast(Number(ParamText(q.baths)))
    else if k == 5 then SquareFeetAtLeast(Number(ParamText(q.squareFeetMin)))
    else if k == 6 then SquareFeetAtMost(Number(ParamText(q.squareFeetMax)))
    else if k == 7 then TypeIs(ParamText(q.propertyType))
    else if k == 8 then HasAmenities(Split(ParamText(q.amenities), ','))
    else
      var from := AvailableFrom(q, parseDate);
      LeaseStartsFrom(if from.Some? then from.value else DateTime(1970, 0, 1, 0))
  }

  /** The handler's `k`-th `if`. */
  function CandidateAt(q: SearchQuery, parseDate: string -> Option<Date>, k: nat): Candidate
    requires k < 10
  {
    Candidate(Guard(q, parseDate, k), ConditionAt(q, parseDate, k))
  }

  /** All ten `if`s of the handler. */
  function Candidates(q: SearchQuery, parseDate: string -> Option<Date>): (cs: seq<Candidate>)
    ensures |cs| == 10
    ensures forall k :: 0 <= k < 10 ==> cs[k] == CandidateAt(q, parseDate, k)
  {
    seq(10, k requires 0 <= k < 10 => CandidateAt(q, parseDate, k))
  }

  /** Pushing, in order, the conditions of the candidates whose `if` succeeds. */
  function Push(cs: seq<Candidate>): (conds: seq<Predicate>)
    ensures |conds| <= |cs|
  {
    if cs == [] then []
    else (if cs[0].pushed then [cs[0].condition] else []) + Push(cs[1..])
  }

  /**
   * The WHERE conditions of `getProperties`. `parseDate` is `new Date(...)` on the
   * `availableFrom` text, `None` for an invalid date; an invalid date adds no condition.
   */
  function WhereConditions(q: SearchQuery, parseDate: string -> Option<Date>): (conds: seq<Predicate>)
    ensures |conds| <= 10
    ensures forall k :: 0 <= k < 10 && CandidateAt(q, parseDate, k).pushed ==>
              CandidateAt(q, parseDate, k).condition in conds
    ensures forall c :: c in conds ==>
              exists k :: 0 <= k < 10 && CandidateAt(q, parseDate, k).pushed && CandidateAt(q, parseDate, k).condition == c
  {
    PushBothWays(Candidates(q, parseDate));
    Push(Candidates(q, parseDate))
  }

  /** The pushed conditions are exactly those of the candidates whose `if` succeeds. */
  lemma PushBothWays(cs: seq<Candidate>)
    ensures forall i :: 0 <= i < |cs| && cs[i].pushed ==> cs[i].condition in Push(cs)
    ensures forall c :: c in Push(cs) ==> exists i :: 0 <= i < |cs| && cs[i].pushed && cs[i].condition == c
  {
    forall i | 0 <= i < |cs| && cs[i].pushed ensures cs[i].condition in Push(cs) {
      PushIncludes(cs, i);
    }
    forall c | c in Push(cs) ensures exists i :: 0 <= i < |cs| && cs[i].pushed && cs[i].condition == c {
      var i := Origin(cs, c);
    }
  }

  /** Pushing one more candidate appends its condition when its `if` succeeds. */
  lemma {:induction false} PushAppend(cs: seq<Candidate>, c: Candidate)
    ensures Push(cs + [c]) == Push(cs) + (if c.pushed then [c.condition] else [])
  {
    if cs == [] {
      assert [] + [c] == [c];
      assert Push([c]) == (if c.pushed then [c.condition] else []) + Push([]);
    } else {
      assert (cs + [c])[0] == cs[0] && (cs + [c])[1..] == cs[1..] + [c];
      PushAppend(cs[1..], c);
    }
  }

  /** The list after the handler's first `k` `if`s. */
  ghost function Built(q: SearchQuery, parseDate: string -> Option<Date>, k: nat): seq<Predicate>
    requires k <= 10
  {
    if k == 0 then []
    else Built(q, parseDate, k - 1)
         + (if Guard(q, parseDate, k - 1) then [ConditionAt(q, parseDate, k - 1)] else [])
  }

  /** Each of the handler's first five `if`s, in its own words, extends the list by its candidate. */
  lemma BuiltStepsFirst(q: SearchQuery, parseDate: string -> Option<Date>)
    ensures Built(q, parseDate, 1) == Built(q, parseDate, 0) + (if Present(q.favoriteIds) then [IdIn(Numbers(Split(q.favoriteIds.value, ',')))] else [])
    ensures Built(q, parseDate, 2) == Built(q, parseDate, 1) + (if Present(q.priceMin) then [PriceAtLeast(Number(q.priceMin.value))] else [])
    ensures Built(q, parseDate, 3) == Built(q, parseDate, 2) + (if Present(q.priceMax) then [PriceAtMost(Number(q.priceMax.value))] else [])
    ensures Built(q, parseDate, 4) == Built(q, parseDate, 3) + (if Constrains(q.beds) then [BedsAtLeast(Number(q.beds.value))] else [])
    ensures Built(q, parseDate, 5) == Built(q, parseDate, 4) + (if Constrains(q.baths) then [BathsAtLeast(Number(q.baths.value))] else [])
  {
  }

  /** Each of the handler's last five `if`s, in its own words, extends the list by its candidate. */
  lemma BuiltStepsLast(q: SearchQuery, parseDate: string -> Option<Date>)
    ensures Built(q, parseDate, 6) == Built(q, parseDate, 5) + (if Present(q.squareFeetMin) then [SquareFeetAtLeast(Number(q.squareFeetMin.value))] else [])
    ensures Built(q, parseDate, 7) == Built(q, parseDate, 6) + (if Present(q.squareFeetMax) then [SquareFeetAtMost(Number(q.squareFeetMax.value))] else [])
    ensures Built(q, parseDate, 8) == Built(q, parseDate, 7) + (if Constrains(q.propertyType) then [TypeIs(q.propertyType.value)] else [])
    ensures Built(q, parseDate, 9) == Built(q, parseDate, 8) + (if Present(q.amenities) then [HasAmenities(Split(q.amenities.value, ','))] else [])
    ensures Built(q, parseDate, 10) == Built(q, parseDate, 9) + (if Present(q.availableFrom) && parseDate(q.availableFrom.value).Some? then [LeaseStartsFrom(parseDate(q.availableFrom.value).value)] else [])
  {
  }

  /** The first `k` `if`s push what the fold pushes for the first `k` candidates. */
  lemma {:induction false} BuiltIsPush(q: SearchQuery, parseDate: string -> Option<Date>, k: nat)
    requires k <= 10
    ensures Built(q, parseDate, k) == Push(Candidates(q, parseDate)[..k])
  {
    var cs := Candidates(q, parseDate);
    if k == 0 {
      assert cs[..0] == [];
    } else {
      BuiltIsPush(q, parseDate, k - 1);
      assert cs[k - 1] == CandidateAt(q, parseDate, k - 1);
      assert cs[..k] == cs[..k - 1] + [cs[k - 1]];
      PushAppend(cs[..k - 1], cs[k - 1]);
    }
  }

  /**
   * The handler's chain of `if`s, each pushing its condition onto `whereConditions` when
   * its test holds (each step appends the one-element list or nothing). The list built
   * is the fold `WhereConditions`, whose meaning `WhereConditionsMeaningAll` states, and
   * it is empty, so that no WHERE clause is emitted, exactly when no criterion is in
   * effect.
   */
  method BuildWhereConditions(q: SearchQuery, parseDate: string -> Option<Date>)
    returns (whereConditions: seq<Predicate>)
    ensures whereConditions == WhereConditions(q, parseDate)
    ensures whereConditions == [] <==> NoCriterion(q, parseDate)
  {
    whereConditions := [];
    whereConditions := whereConditions + (if Present(q.favoriteIds) then [IdIn(Numbers(Split(q.favoriteIds.value, ',')))] else []);
    whereConditions := whereConditions + (if Present(q.priceMin) then [PriceAtLeast(Number(q.priceMin.value))] else []);
    whereConditions := whereConditions + (if Present(q.priceMax) then [PriceAtMost(Number(q.priceMax.value))] else []);
    whereConditions := whereConditions + (if Constrains(q.beds) then [BedsAtLeast(Number(q.beds.value))] else []);
    whereConditions := whereConditions + (if Constrains(q.baths) then [BathsAtLeast(Number(q.baths.value))] else []);
    whereConditions := whereConditions + (if Present(q.squareFeetMin) then [SquareFeetAtLeast(Number(q.squareFeetMin.value))] else []);
    whereConditions := whereConditions + (if Present(q.squareFeetMax) then [SquareFeetAtMost(Number(q.squareFeetMax.value))] else []);
    whereConditions := whereConditions + (if Constrains(q.propertyType) then [TypeIs(q.propertyType.value)] else []);
    whereConditions := whereConditions + (if Present(q.amenities) then [HasAmenities(Split(q.amenities.value, ','))] else []);
    whereConditions := whereConditions
      + (if Present(q.availableFrom) && parseDate(q.availableFrom.value).Some?
         then [LeaseStartsFrom(parseDate(q.availableFrom.value).value)] else []);
    WhereConditionsSpelledOut(q, parseDate);
    NoCriterionNoWhere(q, parseDate);
  }

  /** The fold spelled out: the ten `if`s' pushes, in the handler's order. */
  lemma WhereConditionsSpelledOut(q: SearchQuery, parseDate: string -> Option<Date>)
    ensures WhereConditions(q, parseDate) == []
            + (if Present(q.favoriteIds) then [IdIn(Numbers(Split(q.favoriteIds.value, ',')))] else [])
            + (if Present(q.priceMin) then [PriceAtLeast(Number(q.priceMin.value))] else [])
            + (if Present(q.priceMax) then [PriceAtMost(Number(q.priceMax.value))] else [])
            + (if Constrains(q.beds) then [BedsAtLeast(Number(q.beds.value))] else [])
            + (if Constrains(q.baths) then [BathsAtLeast(Number(q.baths.value))] else [])
            + (if Present(q.squareFeetMin) then [SquareFeetAtLeast(Number(q.squareFeetMin.value))] else [])
            + (if Present(q.squareFeetMax) then [SquareFeetAtMost(Number(q.squareFeetMax.value))] else [])
            + (if Constrains(q.propertyType) then [TypeIs(q.propertyType.value)] else [])
            + (if Present(q.amenities) then [HasAmenities(Split(q.amenities.value, ','))] else [])
            + (if Present(q.availableFrom) && parseDate(q.availableFrom.value).Some? then [LeaseStartsFrom(parseDate(q.availableFrom.value).value)] else [])
  {
    BuiltStepsFirst(q, parseDate);
    BuiltStepsLast(q, parseDate);
    BuiltIsPush(q, parseDate, 10);
    assert Candidates(q, parseDate)[..10] == Candidates(q, parseDate);
  }

  /**
   * The `k`-th search criterion stated on the property's own fields: the meaning the
   * handler's `k`-th condition is meant to have. An absent criterion demands nothing.
   */
  predicate Criterion(q: SearchQuery, parseDate: string -> Option<Date>, p: Property, leases: seq<Lease>, k: nat)
    requires k < 10
  {
    if k == 0 then Present(q.favoriteIds) ==>
      exists s :: s in Split(q.favoriteIds.value, ',') && Number(s) == Finite(p.id)
    else if k == 1 then Present(q.priceMin) ==> NotBelow(p.pricePerMonth, Number(q.priceMin.value))
    else if k == 2 then Present(q.priceMax) ==> NotAbove(p.pricePerMonth, Number(q.priceMax.value))
    else if k == 3 then Constrains(q.beds) ==> NotBelow(p.beds, Number(q.beds.value))
    else if k == 4 then Constrains(q.baths) ==> NotBelow(p.baths, Number(q.baths.value))
    else if k == 5 then Present(q.squareFeetMin) ==> NotBelow(p.squareFeet, Number(q.squareFeetMin.value))
    else if k == 6 then Present(q.squareFeetMax) ==> NotAbove(p.squareFeet, Number(q.squareFeetMax.value))
    else if k == 7 then Constrains(q.propertyType) ==> p.propertyType == q.propertyType.value
    else if k == 8 then Present(q.amenities) ==>
      forall a :: a in Split(q.amenities.value, ',') ==> a in p.amenities
    else Present(q.availableFrom) && parseDate(q.availableFrom.value).Some? ==>
      HasLeaseFrom(leases, p.id, parseDate(q.availableFrom.value).value)
  }

  /** A property satisfies the query when it meets every one of its criteria. */
  predicate Satisfies(q: SearchQuery, parseDate: string -> Option<Date>, p: Property, leases: seq<Lease>)
  {
    forall k :: 0 <= k < 10 ==> Criterion(q, parseDate, p, leases, k)
  }

  /** No criterion is in effect. */
  predicate NoCriterion(q: SearchQuery, parseDate: string -> Option<Date>)
  {
    && !Present(q.favoriteIds) && !Present(q.priceMin) && !Present(q.priceMax)
    && !Constrains(q.beds) && !Constrains(q.baths)
    && !Present(q.squareFeetMin) && !Present(q.squareFeetMax)
    && !Constrains(q.propertyType) && !Present(q.amenities)
    && !(Present(q.availableFrom) && parseDate(q.availableFrom.value).Some?)
  }

  /** `Satisfies` spelled out criterion by criterion. */
  lemma SatisfiesUnfolded(q: SearchQuery, parseDate: string -> Option<Date>, p: Property, leases: seq<Lease>)
    ensures Satisfies(q, parseDate, p, leases) <==>
      && Criterion(q, parseDate, p, leases, 0) && Criterion(q, parseDate, p, leases, 1)
      && Criterion(q, parseDate, p, leases, 2) && Criterion(q, parseDate, p, leases, 3)
      && Criterion(q, parseDate, p, leases, 4) && Criterion(q, parseDate, p, leases, 5)
      && Criterion(q, parseDate, p, leases, 6) && Criterion(q, parseDate, p, leases, 7)
      && Criterion(q, parseDate, p, leases, 8) && Criterion(q, parseDate, p, leases, 9)
  {
    if !Satisfies(q, parseDate, p, leases) {
      var k :| 0 <= k < 10 && !Criterion(q, parseDate, p, leases, k);
      assert k == 0 || k == 1 || k == 2 || k == 3 || k == 4 || k == 5 || k == 6 || k == 7 || k == 8 || k == 9;
    }
  }

  /** A conjunction of concatenated condition lists holds iff each part holds. */
  lemma HoldsAllConcat(a: seq<Predicate>, b: seq<Predicate>, p: Property, leases: seq<Lease>)
    ensures HoldsAll(a + b, p, leases) <==> HoldsAll(a, p, leases) && HoldsAll(b, p, leases)
  {
    if HoldsAll(a + b, p, leases) {
      forall i | 0 <= i < |a| ensures Holds(a[i], p, leases) {
        assert (a + b)[i] == a[i];
      }
      forall i | 0 <= i < |b| ensures Holds(b[i], p, leases) {
        assert (a + b)[|a| + i] == b[i];
      }
    }
  }

  /** The candidate a pushed condition comes from. */
  function Origin(cs: seq<Candidate>, c: Predicate): (i: nat)
    requires c in Push(cs)
    ensures i < |cs| && cs[i].pushed && cs[i].condition == c
  {
    var head := if cs[0].pushed then [cs[0].condition] else [];
    assert Push(cs) == head + Push(cs[1..]);
    if cs[0].pushed && cs[0].condition == c then 0
    else
      assert c in Push(cs[1..]);
      1 + Origin(cs[1..], c)
  }

  /** Every candidate whose `if` succeeds has its condition pushed. */
  lemma {:induction false} PushIncludes(cs: seq<Candidate>, i: nat)
    requires i < |cs| && cs[i].pushed
    ensures cs[i].condition in Push(cs)
  {
    var head := if cs[0].pushed then [cs[0].condition] else [];
    assert Push(cs) == head + Push(cs[1..]);
    if i > 0 {
      PushIncludes(cs[1..], i - 1);
    }
  }

  /** Every pushed condition holds iff every candidate whose `if` succeeds holds. */
  lemma {:induction false} PushMeaning(cs: seq<Candidate>, p: Property, leases: seq<Lease>)
    ensures HoldsAll(Push(cs), p, leases)
            <==> forall i :: 0 <= i < |cs| && cs[i].pushed ==> Holds(cs[i].condition, p, leases)
  {
    if cs != [] {
      var rest := cs[1..];
      PushMeaning(rest, p, leases);
      var head := if cs[0].pushed then [cs[0].condition] else [];
      assert Push(cs) == head + Push(rest);
      HoldsAllConcat(head, Push(rest), p, leases);
      assert HoldsAll(head, p, leases) <==> (cs[0].pushed ==> Holds(cs[0].condition, p, leases));
      if forall i :: 0 <= i < |cs| && cs[i].pushed ==> Holds(cs[i].condition, p, leases) {
        forall j | 0 <= j < |rest| && rest[j].pushed ensures Holds(rest[j].condition, p, leases) {
          assert rest[j] == cs[j + 1];
        }
      }
      if HoldsAll(Push(cs), p, leases) {
        forall i | 0 <= i < |cs| && cs[i].pushed ensures Holds(cs[i].condition, p, leases) {
          if i > 0 { assert cs[i] == rest[i - 1]; }
        }
      }
    }
  }

  /** The `k`-th candidate holds, when pushed, exactly as the `k`-th criterion demands. */
  lemma CandidateMeaning(q: SearchQuery, parseDate: string -> Option<Date>, p: Property, leases: seq<Lease>, k: nat)
    requires k < 10
    ensures var c := CandidateAt(q, parseDate, k);
            (c.pushed ==> Holds(c.condition, p, leases)) <==> Criterion(q, parseDate, p, leases, k)
  {
    if k == 0 && Present(q.favoriteIds) {
      var parts := Split(q.favoriteIds.value, ',');
      if Finite(p.id) in Numbers(parts) {
        var i :| 0 <= i < |parts| && Numbers(parts)[i] == Finite(p.id);
        assert parts[i] in parts;
      }
    }
  }

  /**
   * The conditions are combined with AND only: a property meets the WHERE clause exactly
   * when it meets every criterion of the query.
   */
  lemma WhereConditionsMeaning(q: SearchQuery, parseDate: string -> Option<Date>,
                               p: Property, leases: seq<Lease>)
    ensures HoldsAll(WhereConditions(q, parseDate), p, leases) <==> Satisfies(q, parseDate, p, leases)
  {
    var cs := Candidates(q, parseDate);
    PushMeaning(cs, p, leases);
    forall k | 0 <= k < 10
      ensures (cs[k].pushed ==> Holds(cs[k].condition, p, leases)) <==> Criterion(q, parseDate, p, leases, k)
    {
      CandidateMeaning(q, parseDate, p, leases, k);
    }
  }

  /** The same, for every property at once. */
  lemma WhereConditionsMeaningAll(q: SearchQuery, parseDate: string -> Option<Date>)
    ensures forall p, leases :: HoldsAll(WhereConditions(q, parseDate), p, leases) <==> Satisfies(q, parseDate, p, leases)
  {
    forall p, leases ensures HoldsAll(WhereConditions(q, parseDate), p, leases) <==> Satisfies(q, parseDate, p, leases) {
      WhereConditionsMeaning(q, parseDate, p, leases);
    }
  }

  /** With no criterion in effect no condition is emitted, so no WHERE clause is built. */
  lemma NoCriterionNoWhere(q: SearchQuery, parseDate: string -> Option<Date>)
    ensures WhereConditions(q, parseDate) == [] <==> NoCriterion(q, parseDate)
  {
    var cs := Candidates(q, parseDate);
    if WhereConditions(q, parseDate) == [] {
      forall i | 0 <= i < 10 ensures !Guard(q, parseDate, i) {
        assert !CandidateAt(q, parseDate, i).pushed;
      }
      assert !Guard(q, parseDate, 0) && !Guard(q, parseDate, 1) && !Guard(q, parseDate, 2);
      assert !Guard(q, parseDate, 3) && !Guard(q, parseDate, 4) && !Guard(q, parseDate, 5);
      assert !Guard(q, parseDate, 6) && !Guard(q, parseDate, 7) && !Guard(q, parseDate, 8);
      assert !Guard(q, parseDate, 9);
    } else {
      var c := WhereConditions(q, parseDate)[0];
      var i := Origin(cs, c);
      assert CandidateAt(q, parseDate, i).pushed;
      assert i == 0 || i == 1 || i == 2 || i == 3 || i == 4 || i == 5 || i == 6 || i == 7 || i == 8 || i == 9;
    }
  }

  /**
   * The rows of the property/location join that meet all conditions, in table order
   * (the database's job once the WHERE clause is built).
   */
  function Select(rows: seq<Property>, conds: seq<Predicate>, leases: seq<Lease>): (r: seq<Property>)
    ensures |r| <= |rows|
    ensures forall p :: p in r <==> p in rows && HoldsAll(conds, p, leases)
  {
    if rows == [] then []
    else
      var rest := Select(rows[1..], conds, leases);
      assert forall p :: p in rows <==> p == rows[0] || p in rows[1..];
      if HoldsAll(conds, rows[0], leases) then [rows[0]] + rest else rest
  }

  /** Without conditions every row is returned, in order. */
  lemma {:induction false} SelectWithoutConditions(rows: seq<Property>, leases: seq<Lease>)
    ensures Select(rows, [], leases) == rows
  {
    if rows != [] {
      SelectWithoutConditions(rows[1..], leases);
      assert [rows[0]] + rows[1..] == rows;
    }
  }

  /** `getProperties` with the date check in effect: the rows meeting every criterion. */
  function GetProperties(rows: seq<Property>, leases: seq<Lease>, q: SearchQuery,
                         parseDate: string -> Option<Date>): (r: seq<Property>)
    ensures forall p :: p in r <==> p in rows && Satisfies(q, parseDate, p, leases)
  {
    WhereConditionsMeaningAll(q, parseDate);
    Select(rows, WhereConditions(q, parseDate), leases)
  }

  /** With no criterion in effect the whole join is returned. */
  lemma NoCriterionReturnsAll(rows: seq<Property>, leases: seq<Lease>, q: SearchQuery,
                              parseDate: string -> Option<Date>)
    requires NoCriterion(q, parseDate)
    ensures GetProperties(rows, leases, q, parseDate) == rows
  {
    NoCriterionNoWhere(q, parseDate);
    SelectWithoutConditions(rows, leases);
  }

  /**
   * A lower price bound alone gives `pricePerMonth >= min` and no upper bound; an upper
   * bound alone gives `pricePerMonth <= max` and no lower bound. Square footage alike.
   */
  lemma RangeBoundsIndependent(s: string, parseDate: string -> Option<Date>, p: Property, leases: seq<Lease>)
    requires s != ""
    ensures Satisfies(EmptyQuery.(priceMin := Some(s)), parseDate, p, leases)
            <==> NotBelow(p.pricePerMonth, Number(s))
    ensures Satisfies(EmptyQuery.(priceMax := Some(s)), parseDate, p, leases)
            <==> NotAbove(p.pricePerMonth, Number(s))
    ensures Satisfies(EmptyQuery.(squareFeetMin := Some(s)), parseDate, p, leases)
            <==> NotBelow(p.squareFeet, Number(s))
    ensures Satisfies(EmptyQuery.(squareFeetMax := Some(s)), parseDate, p, leases)
            <==> NotAbove(p.squareFeet, Number(s))
  {
    SatisfiesUnfolded(EmptyQuery.(priceMin := Some(s)), parseDate, p, leases);
    SatisfiesUnfolded(EmptyQuery.(priceMax := Some(s)), parseDate, p, leases);
    SatisfiesUnfolded(EmptyQuery.(squareFeetMin := Some(s)), parseDate, p, leases);
    SatisfiesUnfolded(EmptyQuery.(squareFeetMax := Some(s)), parseDate, p, leases);
  }

  /** `beds` set to `'any'` or left empty adds no condition; any other value adds `beds >= Number(value)`. */
  lemma BedsSentinel(q: SearchQuery, parseDate: string -> Option<Date>)
    ensures (exists c :: c in WhereConditions(q, parseDate) && c.BedsAtLeast?) <==> Constrains(q.beds)
    ensures Constrains(q.beds) ==> BedsAtLeast(Number(q.beds.value)) in WhereConditions(q, parseDate)
  {
    var cs := Candidates(q, parseDate);
    if exists c :: c in WhereConditions(q, parseDate) && c.BedsAtLeast? {
      var c :| c in WhereConditions(q, parseDate) && c.BedsAtLeast?;
      ConditionKind(q, parseDate, Origin(cs, c));
    }
    if Constrains(q.beds) {
      assert cs[3] == CandidateAt(q, parseDate, 3);
      PushIncludes(cs, 3);
      var c := cs[3].condition;
      assert c in WhereConditions(q, parseDate) && c.BedsAtLeast?;
    }
  }

  /** `baths` set to `'any'` or left empty adds no condition; any other value adds `baths >= Number(value)`. */
  lemma BathsSentinel(q: SearchQuery, parseDate: string -> Option<Date>)
    ensures (exists c :: c in WhereConditions(q, parseDate) && c.BathsAtLeast?) <==> Constrains(q.baths)
    ensures Constrains(q.baths) ==> BathsAtLeast(Number(q.baths.value)) in WhereConditions(q, parseDate)
  {
    var cs := Candidates(q, parseDate);
    if exists c :: c in WhereConditions(q, parseDate) && c.BathsAtLeast? {
      var c :| c in WhereConditions(q, parseDate) && c.BathsAtLeast?;
      ConditionKind(q, parseDate, Origin(cs, c));
    }
    if Constrains(q.baths) {
      assert cs[4] == CandidateAt(q, parseDate, 4);
      PushIncludes(cs, 4);
      var c := cs[4].condition;
      assert c in WhereConditions(q, parseDate) && c.BathsAtLeast?;
    }
  }

  /** `propertyType` set to `'any'` or left empty adds no condition; any other value adds type equality. */
  lemma PropertyTypeSentinel(q: SearchQuery, parseDate: string -> Option<Date>)
    ensures (exists c :: c in WhereConditions(q, parseDate) && c.TypeIs?) <==> Constrains(q.propertyType)
    ensures Constrains(q.propertyType) ==> TypeIs(q.propertyType.value) in WhereConditions(q, parseDate)
  {
    var cs := Candidates(q, parseDate);
    if exists c :: c in WhereConditions(q, parseDate) && c.TypeIs? {
      var c :| c in WhereConditions(q, parseDate) && c.TypeIs?;
      ConditionKind(q, parseDate, Origin(cs, c));
    }
    if Constrains(q.propertyType) {
      assert cs[7] == CandidateAt(q, parseDate, 7);
      PushIncludes(cs, 7);
      var c := cs[7].condition;
      assert c in WhereConditions(q, parseDate) && c.TypeIs?;
    }
  }

  /** Only the `beds`, `baths` and `propertyType` checks push conditions of their kinds. */
  lemma ConditionKind(q: SearchQuery, parseDate: string -> Option<Date>, k: nat)
    requires k < 10
    ensures ConditionAt(q, parseDate, k).BedsAtLeast? <==> k == 3
    ensures ConditionAt(q, parseDate, k).BathsAtLeast? <==> k == 4
    ensures ConditionAt(q, parseDate, k).TypeIs? <==> k == 7
  {
  }

  /**
   * The amenity condition is containment, not equality: a property with more amenities
   * than requested still qualifies, one lacking any of them does not.
   */
  lemma AmenitiesAreContainment(required: seq<string>, p: Property, leases: seq<Lease>)
    ensures Holds(HasAmenities(required), p, leases) <==> (set a | a in required) <= (set a | a in p.amenities)
  {
    var wanted := set a | a in required;
    var offered := set a | a in p.amenities;
    if Holds(HasAmenities(required), p, leases) {
      forall a | a in wanted ensures a in offered {
        assert a in required;
      }
    } else {
      var a :| a in required && a !in p.amenities;
      assert a in wanted && a !in offered;
    }
  }

  /** An `availableFrom` value that is not a date adds no condition. */
  lemma InvalidDateAddsNoCondition(q: SearchQuery, parseDate: string -> Option<Date>)
    requires q.availableFrom.Some? && parseDate(q.availableFrom.value).None?
    ensures WhereConditions(q, parseDate) == WhereConditions(q.(availableFrom := None), parseDate)
  {
    var q' := q.(availableFrom := None);
    forall k | 0 <= k < 10 ensures CandidateAt(q, parseDate, k) == CandidateAt(q', parseDate, k) {
    }
    assert Candidates(q, parseDate) == Candidates(q', parseDate);
  }

  // ---------------------------------------------------------------------------
  // As written: the date is logged before it is checked
  // ---------------------------------------------------------------------------

  /** The handler's answer: the rows, or a 500 with the error text. */
  datatype SearchResponse = Rows(properties: seq<Property>) | ServerError(message: string)

  /**
   * `getProperties` as written: for an invalid `availableFrom` date, `date.toISOString()`
   * in the log line throws a RangeError before the `isNaN` check is reached, and the
   * handler answers 500.
   */
  function GetPropertiesAsWritten(rows: seq<Property>, leases: seq<Lease>, q: SearchQuery,
                                  parseDate: string -> Option<Date>): (r: SearchResponse)
    ensures r.ServerError? <==> Present(q.availableFrom) && parseDate(q.availableFrom.value).None?
    ensures r.Rows? ==> forall p :: p in r.properties <==> p in rows && Satisfies(q, parseDate, p, leases)
  {
    if Present(q.availableFrom) && parseDate(q.availableFrom.value).None?
    then ServerError("Error retrieving properties Invalid time value")
    else Rows(GetProperties(rows, leases, q, parseDate))
  }

  /**
   * An unparseable `availableFrom` makes the as-written handler fail, where the guard it
   * carries means to skip the criterion and return every row.
   */
  lemma InvalidDateFailsAsWritten(rows: seq<Property>, leases: seq<Lease>)
    ensures var q := EmptyQuery.(availableFrom := Some("next week"));
            var neverADate := (s: string) => None;
            && GetPropertiesAsWritten(rows, leases, q, neverADate).ServerError?
            && GetProperties(rows, leases, q, neverADate) == rows
  {
    var q := EmptyQuery.(availableFrom := Some("next week"));
    var neverADate: string -> Option<Date> := (s: string) => None;
    assert neverADate(q.availableFrom.value).None?;
    assert NoCriterion(q, neverADate);
    NoCriterionReturnsAll(rows, leases, q, neverADate);
  }

  // ---------------------------------------------------------------------------
  // createProperty: list and flag fields of the multipart body
  // ---------------------------------------------------------------------------

  /** A multipart body field: text, or anything else (absent, repeated). */
  datatype FormField = Text(s: string) | NotText

  /** `typeof f === 'string' ? f.split(',').map(x => x.trim()) : []`. */
  function ParseList(f: FormField): (items: seq<string>)
    ensures f.NotText? ==> items == []
    ensures f.Text? ==> |items| == Count(f.s, ',') + 1
    ensures f.Text? ==> forall i :: 0 <= i < |items| ==> items[i] == Trim(Split(f.s, ',')[i])
    ensures forall i :: 0 <= i < |items| ==>
              ',' !in items[i] && (items[i] == [] || (!IsWhitespace(items[i][0]) && !IsWhitespace(items[i][|items[i]| - 1])))
  {
    match f
    case NotText => []
    case Text(s) =>
      var parts := Split(s, ',');
      seq(|parts|, i requires 0 <= i < |parts| => Trim(parts[i]))
  }

  /** `f === 'true'`: only the exact text `true` sets the flag. */
  function ParseFlag(f: FormField): (b: bool)
    ensures b <==> f == Text("true")
  {
    f.Text? && f.s == "true"
  }

  /**
   * A non-empty list of trimmed items without commas, sent joined with `','`, is parsed
   * back to the same list.
   */
  lemma {:induction false} ParseListJoin(items: seq<string>)
    requires |items| >= 1
    requires forall i :: 0 <= i < |items| ==> ',' !in items[i]
    requires forall i :: 0 <= i < |items| ==>
               items[i] == [] || (!IsWhitespace(items[i][0]) && !IsWhitespace(items[i][|items[i]| - 1]))
    ensures ParseList(Text(Join(items, ','))) == items
  {
    SplitJoin(items, ',');
    forall i | 0 <= i < |items| ensures Trim(items[i]) == items[i] {
      TrimNoWhitespace(items[i]);
    }
  }

  /** The pieces of a list written with a space after each comma, as in `wifi, pool`. */
  function SpacedPieces(items: seq<string>): (pieces: seq<string>)
    ensures |pieces| == |items|
  {
    seq(|items|, i requires 0 <= i < |items| => if i == 0 then items[0] else " " + items[i])
  }

  /** A space before a trimmed item is trimmed away. */
  lemma TrimLeadingSpace(x: string)
    requires x == [] || (!IsWhitespace(x[0]) && !IsWhitespace(x[|x| - 1]))
    ensures Trim(" " + x) == x
  {
    var s := " " + x;
    assert s[1..] == x;
    assert Leading(s) == 1;
    if x != [] {
      assert !IsWhitespace(s[|s| - 1]);
    }
  }

  /**
   * The spaces after the commas are trimmed away: trimmed, comma-free items written with
   * `, ` between them (`wifi, pool`) are parsed back to the items (`wifi` and `pool`).
   */
  lemma ParseListSpaced(items: seq<string>)
    requires |items| >= 1
    requires forall i :: 0 <= i < |items| ==> ',' !in items[i]
    requires forall i :: 0 <= i < |items| ==>
               items[i] == [] || (!IsWhitespace(items[i][0]) && !IsWhitespace(items[i][|items[i]| - 1]))
    ensures ParseList(Text(Join(SpacedPieces(items), ','))) == items
  {
    var pieces := SpacedPieces(items);
    SpacedPiecesCommaFree(items);
    SplitJoin(pieces, ',');
    forall i | 0 <= i < |items| ensures Trim(pieces[i]) == items[i] {
      TrimSpacedPiece(items, i);
    }
  }

  lemma TrimSpacedPiece(items: seq<string>, i: nat)
    requires i < |items|
    requires items[i] == [] || (!IsWhitespace(items[i][0]) && !IsWhitespace(items[i][|items[i]| - 1]))
    ensures Trim(SpacedPieces(items)[i]) == items[i]
  {
    if i == 0 {
      TrimNoWhitespace(items[0]);
    } else {
      TrimLeadingSpace(items[i]);
    }
  }

  lemma SpacedPiecesCommaFree(items: seq<string>)
    requires forall i :: 0 <= i < |items| ==> ',' !in items[i]
    ensures forall i :: 0 <= i < |items| ==> ',' !in SpacedPieces(items)[i]
  {
    forall i | 0 <= i < |items| ensures ',' !in SpacedPieces(items)[i] {
      if i > 0 {
        assert forall c :: c in " " + items[i] ==> c == ' ' || c in items[i];
      }
    }
  }
}
