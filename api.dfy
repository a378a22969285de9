/**
 * The client's request shaping in client/src/state/api.ts: the query parameters the
 * property search sends for a filter state, the cache tags the list and detail queries
 * provide, the URL of the applications query, and the endpoint choices of `getAuthUser`.
 */
module Api {
  import opened Options
  import opened Text
  import opened Calendar
  import opened Entities
  import PC = PropertyControllers
  import GS = GlobalState
  import Auth = AuthMiddleware

  // ---------------------------------------------------------------------------
  // getProperties: filter state to query parameters
  // ---------------------------------------------------------------------------

  /** The argument of `getProperties`: some filters and, optionally, favourite ids. */
  datatype PropertiesArg = PropertiesArg(filters: GS.FilterPatch, favoriteIds: Option<seq<int>>)

  /** The parameter object handed to `cleanParams`; `None` is `undefined` or `null`. */
  datatype QueryParams = QueryParams(
    location: Option<string>,
    priceMin: Option<int>,
    priceMax: Option<int>,
    beds: Option<string>,
    baths: Option<string>,
    propertyType: Option<string>,
    squareFeetMin: Option<int>,
    squareFeetMax: Option<int>,
    amenities: Option<string>,
    availableFrom: Option<string>,
    favoriteIds: Option<string>,
    latitude: Option<real>,
    longitude: Option<real>)

  /** `range?.[0]`: the low end, `undefined` without a range and `null` without a low end. */
  function Low(r: Option<GS.Range>): Option<int>
  {
    if r.Some? then r.value.lo else None
  }

  function High(r: Option<GS.Range>): Option<int>
  {
    if r.Some? then r.value.hi else None
  }

  /** `ids.join(",")` over the decimal renderings of the ids. */
  function JoinIds(ids: seq<int>): string
  {
    Join(seq(|ids|, i requires 0 <= i < |ids| => IntToString(ids[i])), ',')
  }

  /**
   * The `query` callback of `getProperties`: the text filters are passed on as they are,
   * a range is sent end by end, lists are sent joined with `,`, and coordinates are sent
   * only when set.
   */
  function Params(arg: PropertiesArg): (r: QueryParams)
    ensures r.location == arg.filters.location && r.availableFrom == arg.filters.availableFrom
    ensures r.beds == arg.filters.beds && r.baths == arg.filters.baths && r.propertyType == arg.filters.propertyType
    ensures arg.filters.priceRange.None? ==> r.priceMin.None? && r.priceMax.None?
    ensures arg.filters.squareFeetRange.None? ==> r.squareFeetMin.None? && r.squareFeetMax.None?
    ensures r.amenities.Some? <==> arg.filters.amenities.Some?
    ensures r.favoriteIds.Some? <==> arg.favoriteIds.Some?
    ensures r.latitude.Some? <==> arg.filters.coordinates.Some?
    ensures r.longitude.Some? <==> arg.filters.coordinates.Some?
  {
    var f := arg.filters;
    QueryParams(
      f.location,
      Low(f.priceRange), High(f.priceRange),
      f.beds, f.baths, f.propertyType,
      Low(f.squareFeetRange), High(f.squareFeetRange),
      if f.amenities.Some? then Some(Join(f.amenities.value, ',')) else None,
      f.availableFrom,
      if arg.favoriteIds.Some? then Some(JoinIds(arg.favoriteIds.value)) else None,
      if f.coordinates.Some? then Some(f.coordinates.value.1) else None,
      if f.coordinates.Some? then Some(f.coordinates.value.0) else None)
  }

  /**
   * The query string values the server reads, numbers rendered in decimal: every bound
   * that is set arrives truthy and reads back through `Number` as itself, and the text
   * values arrive unchanged.
   */
  function ToSearchQuery(p: QueryParams): (q: PC.SearchQuery)
    ensures q.favoriteIds == p.favoriteIds && q.amenities == p.amenities && q.availableFrom == p.availableFrom
    ensures q.beds == p.beds && q.baths == p.baths && q.propertyType == p.propertyType
    ensures PC.Present(q.priceMin) <==> p.priceMin.Some?
    ensures p.priceMin.Some? ==> Number(q.priceMin.value) == Finite(p.priceMin.value)
    ensures PC.Present(q.priceMax) <==> p.priceMax.Some?
    ensures p.priceMax.Some? ==> Number(q.priceMax.value) == Finite(p.priceMax.value)
    ensures PC.Present(q.squareFeetMin) <==> p.squareFeetMin.Some?
    ensures p.squareFeetMin.Some? ==> Number(q.squareFeetMin.value) == Finite(p.squareFeetMin.value)
    ensures PC.Present(q.squareFeetMax) <==> p.squareFeetMax.Some?
    ensures p.squareFeetMax.Some? ==> Number(q.squareFeetMax.value) == Finite(p.squareFeetMax.value)
  {
    RenderedReadsBack(p.priceMin);
    RenderedReadsBack(p.priceMax);
    RenderedReadsBack(p.squareFeetMin);
    RenderedReadsBack(p.squareFeetMax);
    PC.SearchQuery(
      p.favoriteIds,
      Rendered(p.priceMin), Rendered(p.priceMax),
      p.beds, p.baths, p.propertyType,
      Rendered(p.squareFeetMin), Rendered(p.squareFeetMax),
      p.amenities, p.availableFrom)
  }

  /** A rendered bound is truthy exactly when it is set, and reads back as itself. */
  lemma RenderedReadsBack(bound: Option<int>)
    ensures PC.Present(Rendered(bound)) <==> bound.Some?
    ensures bound.Some? ==> Number(Rendered(bound).value) == Finite(bound.value)
  {
    if bound.Some? { NumberIntToString(bound.value); }
  }

  /** What the server's search sees for a client request. */
  function SearchQueryOf(arg: PropertiesArg): PC.SearchQuery
  {
    ToSearchQuery(Params(arg))
  }

  /**
   * The ranges are sent end by end and coordinates as `[longitude, latitude]`: the low
   * end of a range is its `Min` parameter, the high end its `Max`, `latitude` is the
   * second coordinate and `longitude` the first.
   */
  lemma ParamsShape(arg: PropertiesArg, priceLo: Option<int>, priceHi: Option<int>,
                    sizeLo: Option<int>, sizeHi: Option<int>, lng: real, lat: real)
    requires arg.filters.priceRange == Some(GS.Range(priceLo, priceHi))
    requires arg.filters.squareFeetRange == Some(GS.Range(sizeLo, sizeHi))
    requires arg.filters.coordinates == Some((lng, lat))
    ensures Params(arg).priceMin == priceLo && Params(arg).priceMax == priceHi
    ensures Params(arg).squareFeetMin == sizeLo && Params(arg).squareFeetMax == sizeHi
    ensures Params(arg).latitude == Some(lat) && Params(arg).longitude == Some(lng)
  {
  }

  /** The decimal rendering of an optional bound, as the query string carries it. */
  function Rendered(bound: Option<int>): Option<string>
  {
    if bound.Some? then Some(IntToString(bound.value)) else None
  }

  /** A rendered lower bound is read back as `x >= bound`, an absent one as no bound. */
  lemma RenderedLowerBound(bound: Option<int>, x: int)
    ensures PC.Present(Rendered(bound)) ==> PC.NotBelow(x, Number(Rendered(bound).value)) == (bound.Some? && bound.value <= x)
    ensures PC.Present(Rendered(bound)) <==> bound.Some?
  {
    if bound.Some? { NumberIntToString(bound.value); }
  }

  lemma RenderedUpperBound(bound: Option<int>, x: int)
    ensures PC.Present(Rendered(bound)) ==> PC.NotAbove(x, Number(Rendered(bound).value)) == (bound.Some? && x <= bound.value)
    ensures PC.Present(Rendered(bound)) <==> bound.Some?
  {
    if bound.Some? { NumberIntToString(bound.value); }
  }

  /**
   * A price range set on the client reaches the server as the same bounds: a property
   * meets the price criteria exactly when its rent lies within the ends that are set.
   */
  lemma PriceRangeEndToEnd(arg: PropertiesArg, parseDate: string -> Option<Date>, p: Property, leases: seq<Lease>)
    requires arg.filters.priceRange.Some?
    ensures var r := arg.filters.priceRange.value;
            && (PC.Criterion(SearchQueryOf(arg), parseDate, p, leases, 1) <==>
                  (r.lo.Some? ==> r.lo.value <= p.pricePerMonth))
            && (PC.Criterion(SearchQueryOf(arg), parseDate, p, leases, 2) <==>
                  (r.hi.Some? ==> p.pricePerMonth <= r.hi.value))
  {
    var r := arg.filters.priceRange.value;
    var q := SearchQueryOf(arg);
    assert q.priceMin == Rendered(r.lo) && q.priceMax == Rendered(r.hi);
    RenderedLowerBound(r.lo, p.pricePerMonth);
    RenderedUpperBound(r.hi, p.pricePerMonth);
  }

  /** The same for the square-footage range. */
  lemma SquareFeetRangeEndToEnd(arg: PropertiesArg, parseDate: string -> Option<Date>, p: Property, leases: seq<Lease>)
    requires arg.filters.squareFeetRange.Some?
    ensures var r := arg.filters.squareFeetRange.value;
            && (PC.Criterion(SearchQueryOf(arg), parseDate, p, leases, 5) <==>
                  (r.lo.Some? ==> r.lo.value <= p.squareFeet))
            && (PC.Criterion(SearchQueryOf(arg), parseDate, p, leases, 6) <==>
                  (r.hi.Some? ==> p.squareFeet <= r.hi.value))
  {
    var r := arg.filters.squareFeetRange.value;
    var q := SearchQueryOf(arg);
    assert q.squareFeetMin == Rendered(r.lo) && q.squareFeetMax == Rendered(r.hi);
    RenderedLowerBound(r.lo, p.squareFeet);
    RenderedUpperBound(r.hi, p.squareFeet);
  }

  /**
   * Amenities joined with `','` are split on `','` by the server: for names without a
   * comma, a property meets the amenity criterion exactly when it has every amenity the
   * client asked for (an empty list asks for nothing).
   */
  lemma AmenitiesEndToEnd(arg: PropertiesArg, parseDate: string -> Option<Date>, p: Property, leases: seq<Lease>)
    requires arg.filters.amenities.Some?
    requires forall i :: 0 <= i < |arg.filters.amenities.value| ==>
               ',' !in arg.filters.amenities.value[i] && arg.filters.amenities.value[i] != ""
    ensures PC.Criterion(SearchQueryOf(arg), parseDate, p, leases, 8) <==>
            forall a :: a in arg.filters.amenities.value ==> a in p.amenities
  {
    var wanted := arg.filters.amenities.value;
    var q := SearchQueryOf(arg);
    assert q.amenities == Some(Join(wanted, ','));
    if |wanted| >= 1 {
      SplitJoin(wanted, ',');
    } else {
      assert Join(wanted, ',') == "";
    }
  }

  /** The rendered ids carry no comma, and they are read back as the same numbers. */
  lemma {:induction false} JoinIdsRoundTrip(ids: seq<int>)
    requires |ids| >= 1
    ensures PC.Numbers(Split(JoinIds(ids), ',')) == seq(|ids|, i requires 0 <= i < |ids| => Finite(ids[i]))
  {
    var texts := seq(|ids|, i requires 0 <= i < |ids| => IntToString(ids[i]));
    SplitJoin(texts, ',');
    forall i | 0 <= i < |ids| ensures Number(texts[i]) == Finite(ids[i]) {
      NumberIntToString(ids[i]);
    }
  }

  /** A non-empty id list is sent as a non-empty (truthy) string. */
  lemma {:induction false} JoinIdsNonEmpty(ids: seq<int>)
    requires |ids| >= 1
    ensures JoinIds(ids) != ""
  {
    var texts := seq(|ids|, i requires 0 <= i < |ids| => IntToString(ids[i]));
    assert |texts[0]| >= 1;
    if |ids| >= 2 {
      assert JoinIds(ids) == texts[0] + [','] + Join(texts[1..], ',');
    }
  }

  /** A position of a member of a list. */
  function PositionOf(xs: seq<string>, x: string): (i: nat)
    requires x in xs
    ensures i < |xs| && xs[i] == x
  {
    if xs[0] == x then 0 else 1 + PositionOf(xs[1..], x)
  }

  /** The server finds an id among the split, converted pieces exactly when the list has it. */
  lemma IdAmongParts(ids: seq<int>, x: int)
    requires |ids| >= 1
    ensures (exists s :: s in Split(JoinIds(ids), ',') && Number(s) == Finite(x)) <==> x in ids
  {
    var parts := Split(JoinIds(ids), ',');
    JoinIdsRoundTrip(ids);
    var ns := PC.Numbers(parts);
    forall i | 0 <= i < |parts| ensures Number(parts[i]) == Finite(ids[i]) {
      assert ns[i] == Number(parts[i]);
    }
    IdAmongNumbers(parts, ids, x);
  }

  lemma IdAmongNumbers(parts: seq<string>, ids: seq<int>, x: int)
    requires |parts| == |ids|
    requires forall i :: 0 <= i < |parts| ==> Number(parts[i]) == Finite(ids[i])
    ensures (exists s :: s in parts && Number(s) == Finite(x)) <==> x in ids
  {
    if x in ids {
      var i :| 0 <= i < |ids| && ids[i] == x;
      assert parts[i] in parts && Number(parts[i]) == Finite(x);
    }
    if exists s :: s in parts && Number(s) == Finite(x) {
      var s :| s in parts && Number(s) == Finite(x);
      var i := PositionOf(parts, s);
      assert ids[i] == x;
    }
  }

  /**
   * Favourite ids joined with `','` are split and converted back by the server: a
   * non-empty list keeps exactly the properties whose id it holds, and an empty list
   * is sent as `""`, which restricts nothing.
   */
  lemma FavoritesEndToEnd(arg: PropertiesArg, parseDate: string -> Option<Date>, p: Property, leases: seq<Lease>)
    requires arg.favoriteIds.Some?
    ensures |arg.favoriteIds.value| >= 1 ==>
              (PC.Criterion(SearchQueryOf(arg), parseDate, p, leases, 0) <==> p.id in arg.favoriteIds.value)
    ensures arg.favoriteIds.value == [] ==> PC.Criterion(SearchQueryOf(arg), parseDate, p, leases, 0)
  {
    var ids := arg.favoriteIds.value;
    var q := SearchQueryOf(arg);
    assert q.favoriteIds == Some(JoinIds(ids));
    if |ids| >= 1 {
      JoinIdsNonEmpty(ids);
      IdAmongParts(ids, p.id);
    } else {
      assert JoinIds(ids) == "";
    }
  }

  /** The whole filter state as a payload. */
  function AllOf(f: GS.FilterState): GS.FilterPatch
  {
    GS.FilterPatch(Some(f.location), Some(f.beds), Some(f.baths), Some(f.propertyType), Some(f.amenities),
                   Some(f.availableFrom), Some(f.priceRange), Some(f.squareFeetRange), Some(f.coordinates))
  }

  /**
   * Searching with the initial filters puts no condition on the server: `"any"` for beds,
   * baths and type, no amenities, no date and `[null, null]` ranges all add none.
   */
  lemma InitialFiltersUnconstrained(parseDate: string -> Option<Date>)
    ensures PC.WhereConditions(SearchQueryOf(PropertiesArg(AllOf(GS.InitialFilters), None)), parseDate) == []
  {
    var q := SearchQueryOf(PropertiesArg(AllOf(GS.InitialFilters), None));
    assert Join([], ',') == "";
    PC.NoCriterionNoWhere(q, parseDate);
  }

  // ---------------------------------------------------------------------------
  // Cache tags
  // ---------------------------------------------------------------------------

  datatype TagId = Item(id: int) | ListTag

  /** An RTK Query cache tag: a tag type and an id. */
  datatype Tag = Tag(kind: string, id: TagId)

  /**
   * The `providesTags` of the list queries: one tag per row id, then the list tag; the
   * list tag alone without a result.
   */
  function ListTags(kind: string, result: Option<seq<Property>>): (tags: seq<Tag>)
    ensures result.None? ==> tags == [Tag(kind, ListTag)]
    ensures result.Some? ==> |tags| == |result.value| + 1
  {
    if result.None? then [Tag(kind, ListTag)]
    else seq(|result.value|, i requires 0 <= i < |result.value| => Tag(kind, Item(result.value[i].id)))
         + [Tag(kind, ListTag)]
  }

  /**
   * The list tag is always provided, so invalidating it refetches every list; a row's
   * tag is provided exactly when the row is in the result, and every tag is of the
   * query's own type.
   */
  lemma ListTagsMeaning(kind: string, result: Option<seq<Property>>, id: int)
    ensures Tag(kind, ListTag) in ListTags(kind, result)
    ensures Tag(kind, Item(id)) in ListTags(kind, result) <==>
              result.Some? && exists p :: p in result.value && p.id == id
    ensures forall t :: t in ListTags(kind, result) ==> t.kind == kind
  {
    var tags := ListTags(kind, result);
    if result.Some? {
      assert tags[|tags| - 1] == Tag(kind, ListTag);
      if exists p :: p in result.value && p.id == id {
        var p :| p in result.value && p.id == id;
        var i :| 0 <= i < |result.value| && result.value[i] == p;
        assert tags[i] == Tag(kind, Item(id));
      }
    }
  }

  /** The `providesTags` of the detail queries: the row's tag, or none without a result. */
  function ItemTags(kind: string, result: Option<int>): (tags: seq<Tag>)
    ensures result.None? <==> tags == []
    ensures result.Some? ==> |tags| == 1
    ensures forall t :: t in tags ==> t == Tag(kind, Item(result.value))
  {
    if result.None? then [] else [Tag(kind, Item(result.value))]
  }

  // ---------------------------------------------------------------------------
  // getApplications: the URL
  // ---------------------------------------------------------------------------

  /** The characters `URLSearchParams` writes as they are. */
  predicate IsUnreserved(c: char)
  {
    ('A' <= c <= 'Z') || ('a' <= c <= 'z') || ('0' <= c <= '9') || c == '*' || c == '-' || c == '.' || c == '_'
  }

  /** The UTF-8 bytes of a character. */
  function Utf8(c: char): (bytes: seq<int>)
    ensures 1 <= |bytes| <= 4
    ensures forall i :: 0 <= i < |bytes| ==> 0 <= bytes[i] < 256
    ensures (c as int) < 128 <==> bytes == [c as int]
  {
    var cp := c as int;
    if cp < 0x80 then [cp]
    else if cp < 0x800 then [0xC0 + cp / 64, 0x80 + cp % 64]
    else if cp < 0x1_0000 then [0xE0 + cp / 4096, 0x80 + (cp / 64) % 64, 0x80 + cp % 64]
    else [0xF0 + cp / 262144, 0x80 + (cp / 4096) % 64, 0x80 + (cp / 64) % 64, 0x80 + cp % 64]
  }

  function HexDigit(d: int): (c: char)
    requires 0 <= d < 16
    ensures IsUnreserved(c)
  {
    if d < 10 then ('0' as int + d) as char else ('A' as int + d - 10) as char
  }

  predicate IsHexDigit(c: char)
  {
    ('0' <= c <= '9') || ('A' <= c <= 'F')
  }

  function HexValue(c: char): (d: int)
    requires IsHexDigit(c)
    ensures 0 <= d < 16
  {
    if c <= '9' then c as int - '0' as int else c as int - 'A' as int + 10
  }

  /** `%XX` with upper-case hexadecimal digits. */
  function PercentBytes(bytes: seq<int>): (s: string)
    requires forall i :: 0 <= i < |bytes| ==> 0 <= bytes[i] < 256
    ensures |s| == 3 * |bytes|
    ensures forall i :: 0 <= i < |s| ==> IsUnreserved(s[i]) || s[i] == '%'
  {
    if bytes == [] then ""
    else ['%', HexDigit(bytes[0] / 16), HexDigit(bytes[0] % 16)] + PercentBytes(bytes[1..])
  }

  /** How `URLSearchParams` writes one character. */
  function EncodeChar(c: char): (s: string)
    ensures |s| >= 1
    ensures forall i :: 0 <= i < |s| ==> IsUnreserved(s[i]) || s[i] == '+' || s[i] == '%'
  {
    if IsUnreserved(c) then [c]
    else if c == ' ' then "+"
    else PercentBytes(Utf8(c))
  }

  /** `application/x-www-form-urlencoded` serialisation of a name or value. */
  function FormEncode(s: string): (e: string)
    ensures forall i :: 0 <= i < |e| ==> IsUnreserved(e[i]) || e[i] == '+' || e[i] == '%'
    ensures '&' !in e && '=' !in e
  {
    if s == [] then "" else EncodeChar(s[0]) + FormEncode(s[1..])
  }

  /**
   * The server's decoding of a query value, for the escapes of ASCII characters: `+`
   * is a space and `%XX` below 128 the character with that code. Escapes of the bytes of
   * longer UTF-8 sequences are not decoded by this model.
   */
  function FormDecode(s: string): string
    decreases |s|
  {
    if s == [] then ""
    else if s[0] == '+' then " " + FormDecode(s[1..])
    else if s[0] == '%' && |s| >= 3 && IsHexDigit(s[1]) && IsHexDigit(s[2])
            && HexValue(s[1]) * 16 + HexValue(s[2]) < 128 then
      [(HexValue(s[1]) * 16 + HexValue(s[2])) as char] + FormDecode(s[3..])
    else [s[0]] + FormDecode(s[1..])
  }

  predicate IsAscii(s: string)
  {
    forall i :: 0 <= i < |s| ==> (s[i] as int) < 128
  }

  /** One encoded ASCII character is decoded back ahead of whatever follows it. */
  lemma DecodeEncodedChar(c: char, rest: string)
    requires (c as int) < 128
    ensures FormDecode(EncodeChar(c) + rest) == [c] + FormDecode(rest)
  {
    var e := EncodeChar(c);
    if IsUnreserved(c) {
      assert (e + rest)[1..] == rest;
    } else if c == ' ' {
      assert (e + rest)[1..] == rest;
    } else {
      var b := c as int;
      assert e == ['%', HexDigit(b / 16), HexDigit(b % 16)];
      assert (e + rest)[3..] == rest;
      assert HexValue(HexDigit(b / 16)) == b / 16 && HexValue(HexDigit(b % 16)) == b % 16;
    }
  }

  /** An ASCII value survives encoding by the client and decoding by the server. */
  lemma {:induction false} FormRoundTrip(s: string)
    requires IsAscii(s)
    ensures FormDecode(FormEncode(s)) == s
  {
    if s != [] {
      assert IsAscii(s[1..]) by {
        forall i | 0 <= i < |s[1..]| ensures (s[1..][i] as int) < 128 {
          assert s[1..][i] == s[i + 1];
        }
      }
      FormRoundTrip(s[1..]);
      DecodeEncodedChar(s[0], FormEncode(s[1..]));
      assert [s[0]] + s[1..] == s;
    }
  }

  /** A query parameter the client appends: present and not the empty string. */
  predicate Truthy(v: Option<string>)
  {
    v.Some? && v.value != ""
  }

  /** `name=value` as `URLSearchParams` writes a pair. */
  function Pair(name: string, value: string): (pair: string)
    ensures '&' !in pair && '=' in pair
  {
    var n, v := FormEncode(name), FormEncode(value);
    assert forall c :: c in n + "=" + v ==> c in n || c == '=' || c in v;
    n + "=" + v
  }

  const ApplicationsPath := "/applications?"
  const UserIdKey := "userId"
  const UserTypeKey := "userType"

  /** The pair `params.append(name, value)` adds when `value` is truthy, and nothing otherwise. */
  function PairIf(name: string, value: Option<string>): (pair: Option<string>)
    ensures pair.Some? <==> Truthy(value)
    ensures pair.Some? ==> pair.value == Pair(name, value.value)
  {
    if Truthy(value) then Some(Pair(name, value.value)) else None
  }

  /** The list holding the pair when there is one. */
  function AsList(pair: Option<string>): seq<string>
  {
    if pair.Some? then [pair.value] else []
  }

  /**
   * A query string that serialises the optional pairs `first` and `second`, in that
   * order: it is empty exactly when neither is present, and otherwise splits on `&` into
   * the present pairs.
   */
  predicate Serialises(query: string, first: Option<string>, second: Option<string>)
  {
    && (first.None? && second.None? <==> query == "")
    && (first.Some? || second.Some? ==> Split(query, '&') == AsList(first) + AsList(second))
  }

  /**
   * The `query` of `getApplications`: `userId` and then `userType` are appended, each
   * only when truthy, and the serialised parameters follow `/applications?`.
   */
  method ApplicationsUrl(userId: Option<string>, userType: Option<string>) returns (url: string)
    ensures |url| >= |ApplicationsPath| && url[..|ApplicationsPath|] == ApplicationsPath
    ensures Serialises(url[|ApplicationsPath|..], PairIf(UserIdKey, userId), PairIf(UserTypeKey, userType))
  {
    var pairs: seq<string> := [];
    pairs := pairs + AsList(PairIf(UserIdKey, userId));
    pairs := pairs + AsList(PairIf(UserTypeKey, userType));
    var query := Join(pairs, '&');
    QueryOfPairsIn(PairIf(UserIdKey, userId), PairIf(UserTypeKey, userType), pairs);
    url := ApplicationsPath + query;
    assert url[|ApplicationsPath|..] == query;
  }

  /** Pairs appended in order and joined with `&` serialise those pairs. */
  lemma QueryOfPairsIn(first: Option<string>, second: Option<string>, pairs: seq<string>)
    requires first.Some? ==> '&' !in first.value && '=' in first.value
    requires second.Some? ==> '&' !in second.value && '=' in second.value
    requires pairs == [] + AsList(first) + AsList(second)
    ensures Serialises(Join(pairs, '&'), first, second)
  {
    assert forall i :: 0 <= i < |pairs| ==> '&' !in pairs[i] && '=' in pairs[i] by {
      assert first.Some? && second.Some? ==> pairs == [first.value, second.value];
      assert first.Some? && second.None? ==> pairs == [first.value];
      assert first.None? && second.Some? ==> pairs == [second.value];
    }
    QueryOfPairs(pairs);
  }

  /** Pairs joined with `&` are empty only when there is no pair, and split back apart. */
  lemma QueryOfPairs(pairs: seq<string>)
    requires forall i :: 0 <= i < |pairs| ==> '&' !in pairs[i] && '=' in pairs[i]
    ensures Join(pairs, '&') == "" <==> pairs == []
    ensures pairs != [] ==> Split(Join(pairs, '&'), '&') == pairs
  {
    if pairs != [] {
      SplitJoin(pairs, '&');
      assert |Split(Join(pairs, '&'), '&')[0]| > 0 by { assert '=' in pairs[0]; }
    }
  }

  /**
   * The server reads a pair back: splitting on `=` gives the name and the encoded value,
   * and an ASCII value decodes to what the client sent.
   */
  lemma PairReadBack(name: string, value: string)
    requires IsAscii(value)
    ensures Split(Pair(name, value), '=') == [FormEncode(name), FormEncode(value)]
    ensures FormDecode(FormEncode(value)) == value
  {
    SplitJoin([FormEncode(name), FormEncode(value)], '=');
    assert Join([FormEncode(name), FormEncode(value)], '=') == Pair(name, value) by {
      assert [FormEncode(name), FormEncode(value)][1..] == [FormEncode(value)];
    }
    FormRoundTrip(value);
  }

  // ---------------------------------------------------------------------------
  // getAuthUser: endpoint choice and the 404 fallback
  // ---------------------------------------------------------------------------

  /** The path of the user-details lookup: managers for role `"manager"`, tenants otherwise. */
  function UserDetailsPath(role: Option<string>, userId: string): (path: string)
    ensures role == Some("manager") ==> path == "/managers/" + userId
    ensures role != Some("manager") ==> path == "/tenants/" + userId
  {
    (if role == Some("manager") then "/managers" else "/tenants") + "/" + userId
  }

  /** The `status` of a failed fetch: an HTTP code, or a non-numeric error kind. */
  datatype ErrorStatus = Code(code: int) | Failure(kind: string)

  /** What a fetch gives: the record, or an error with its status. */
  datatype Fetched<T> = Data(data: T) | Error(status: ErrorStatus)

  /**
   * The user details `getAuthUser` keeps: the lookup's answer, replaced by the answer of
   * the user-creation request only when the lookup failed with status 404. `create` is
   * that request, made only in that case.
   */
  function UserDetails<T>(lookup: Fetched<T>, create: () -> Fetched<T>): (r: Fetched<T>)
    ensures lookup == Error(Code(404)) ==> r == create()
    ensures lookup.Data? ==> r == lookup
    ensures lookup.Error? && lookup.status != Code(404) ==> r == lookup
  {
    if lookup.Error? && lookup.status == Code(404) then create() else lookup
  }

  /**
   * The client compares the role exactly while the server lower-cases it: a user whose
   * `custom:role` is `"Manager"` passes the server's manager gate, yet the client looks
   * the user up among tenants.
   */
  lemma RoleCaseMismatch(header: Option<string>, decode: string -> Auth.Decoded, userId: string)
    requires Auth.Token(header) != ""
    requires decode(Auth.Token(header)) == Auth.Payload(Auth.Claims(None, None, Some(Auth.Str("Manager"))))
    ensures Auth.Decide(header, decode, ["manager"]) == Auth.Proceed
    ensures UserDetailsPath(Some("Manager"), userId) == "/tenants/" + userId
  {
    Auth.RoleComparedLowerCased(header, decode);
  }
}
