/**
 * The professional directory of the Yellow Pages section: the listing
 * record, the three filter criteria, and the filter that keeps the
 * listings matching all of them, in catalog order.
 */
module Directory {
  import opened Text
  import Arrays

  datatype Option<T> = None | Some(value: T)

  /** The closed set of listing kinds (the `type` field of a professional). */
  datatype Kind = Therapist | Psychologist | Psychiatrist | Centre

  /** The string each kind carries in the page, as compared against the type filter. */
  function KindName(k: Kind): (r: string)
    ensures r != "All"
  {
    match k
    case Therapist => "Therapist"
    case Psychologist => "Psychologist"
    case Psychiatrist => "Psychiatrist"
    case Centre => "Centre"
  }

  /** Distinct kinds carry distinct names, so the type filter singles out one kind. */
  lemma KindNameInjective(k: Kind, k': Kind)
    requires KindName(k) == KindName(k')
    ensures k == k'
  {
  }

  /** One directory listing. The rating is shown only; it takes no part in filtering. */
  datatype Professional = Professional(
    id: int,
    name: string,
    specialization: string,
    kind: Kind,
    district: string,
    location: string,
    phone: string,
    rating: real)

  /**
   * The filter state of the section: the typed query, the type chip
   * ("All" or a kind name) and the selected district, if any.
   */
  datatype Criteria = Criteria(query: string, filterType: string, district: Option<string>)

  /** The criteria the section starts with: they filter nothing out. */
  const Initial := Criteria("", "All", None)

  /** Case-insensitive search over name, specialization and location. */
  predicate MatchesSearch(p: Professional, query: string) {
    var q := Lower(query);
    Includes(Lower(p.name), q) || Includes(Lower(p.specialization), q) || Includes(Lower(p.location), q)
  }

  /** "All" is a wildcard; any other value must equal the kind's name exactly. */
  predicate MatchesType(p: Professional, filterType: string) {
    filterType == "All" || KindName(p.kind) == filterType
  }

  /**
   * JavaScript's `!selectedDistrict` holds for `null` and also for the empty
   * string, so both leave the district unconstrained.
   */
  predicate NoDistrict(district: Option<string>) {
    district.None? || district.value == ""
  }

  predicate MatchesDistrict(p: Professional, district: Option<string>) {
    NoDistrict(district) || p.district == district.value
  }

  predicate Matches(p: Professional, c: Criteria) {
    MatchesSearch(p, c.query) && MatchesType(p, c.filterType) && MatchesDistrict(p, c.district)
  }

  /** `professionals.filter(...)`: the listings that match all three criteria, in catalog order. */
  function FilterProfessionals(ps: seq<Professional>, c: Criteria): (r: seq<Professional>)
    ensures |r| <= |ps|
    ensures forall i :: 0 <= i < |r| ==> r[i] in ps && Matches(r[i], c)
    ensures forall i :: 0 <= i < |ps| && Matches(ps[i], c) ==> ps[i] in r
  {
    Arrays.FilterMembers(ps, p => Matches(p, c));
    Arrays.Filter(ps, p => Matches(p, c))
  }

  /**
   * The listings shown keep their catalog order: strictly increasing catalog
   * positions produce them, and a position is among them exactly when its
   * listing matches.
   */
  lemma FilterKeepsOrder(ps: seq<Professional>, c: Criteria) returns (idx: seq<nat>)
    ensures Arrays.Selects(idx, FilterProfessionals(ps, c), ps)
    ensures forall i :: 0 <= i < |ps| ==> (i in idx <==> Matches(ps[i], c))
  {
    idx := Arrays.FilterPositions(ps, p => Matches(p, c));
  }

  /** With every criterion at its wildcard the whole catalog comes back, in order. */
  lemma FilterInitial(ps: seq<Professional>)
    ensures FilterProfessionals(ps, Initial) == ps
  {
    forall p | p in ps
      ensures Matches(p, Initial)
    {
      IncludesEmpty(Lower(p.name));
    }
    Arrays.FilterKeepsAll(ps, p => Matches(p, Initial));
  }

  /** Queries that differ only in letter case give identical results. */
  lemma FilterCaseInsensitive(ps: seq<Professional>, c: Criteria, query: string)
    requires SameUpToCase(c.query, query)
    ensures FilterProfessionals(ps, c) == FilterProfessionals(ps, c.(query := query))
  {
    var c' := c.(query := query);
    assert forall p :: Matches(p, c) == Matches(p, c');
    Arrays.FilterAgreeing(ps, p => Matches(p, c), p => Matches(p, c'));
  }

  /**
   * Selecting a district narrows the list shown with no district selected to
   * the listings in that district, keeping their order.
   */
  lemma FilterNarrowsByDistrict(ps: seq<Professional>, c: Criteria, d: string)
    requires d != ""
    ensures FilterProfessionals(ps, c.(district := Some(d)))
         == Arrays.Filter(FilterProfessionals(ps, c.(district := None)), (p: Professional) => p.district == d)
  {
    var wide := c.(district := None);
    var narrow := c.(district := Some(d));
    Arrays.FilterTwice(ps, p => Matches(p, wide), (p: Professional) => p.district == d, p => Matches(p, narrow));
  }

  /**
   * Choosing a kind's chip narrows the list shown under "All" to the listings
   * of that kind, keeping their order.
   */
  lemma FilterNarrowsByType(ps: seq<Professional>, c: Criteria, k: Kind)
    ensures FilterProfessionals(ps, c.(filterType := KindName(k)))
         == Arrays.Filter(FilterProfessionals(ps, c.(filterType := "All")), (p: Professional) => p.kind == k)
  {
    var wide := c.(filterType := "All");
    var narrow := c.(filterType := KindName(k));
    forall p: Professional
      ensures MatchesType(p, KindName(k)) == (p.kind == k)
    {
      if KindName(p.kind) == KindName(k) {
        KindNameInjective(p.kind, k);
      }
    }
    Arrays.FilterTwice(ps, p => Matches(p, wide), (p: Professional) => p.kind == k, p => Matches(p, narrow));
  }

  /** The district click handler: clicking the selected district clears it, any other selects it. */
  function ToggleDistrict(selected: Option<string>, name: string): (r: Option<string>)
    ensures r.None? <==> selected == Some(name)
    ensures r.Some? ==> r.value == name
  {
    if selected == Some(name) then None else Some(name)
  }

  /** Clicking the same marker twice from any other state ends with no district selected. */
  lemma ToggleTwice(selected: Option<string>, name: string)
    requires selected != Some(name)
    ensures ToggleDistrict(ToggleDistrict(selected, name), name) == None
  {
  }

  /** After clicking a marker, clicking a different one selects the latter. */
  lemma ToggleOther(selected: Option<string>, first: string, second: string)
    requires first != second
    ensures ToggleDistrict(ToggleDistrict(selected, first), second) == Some(second)
  {
  }
}
