/**
 * The Yellow Pages section as a stateful component: its reveal latch and its
 * three filter criteria, changed by the page's event handlers, and the list it
 * renders from them.
 */
module YellowPagesSection {
  import opened Text
  import opened Directory
  import Catalog
  import Reveal

  class YellowPages {
    const latch: Reveal.RevealLatch
    var selectedDistrict: Option<string>
    var searchQuery: string
    var filterType: string

    /** The handlers only ever select a marked district and only ever set a chip's type. */
    ghost predicate Valid()
      reads this
    {
      (selectedDistrict.Some? ==> selectedDistrict.value in Catalog.DistrictNames) &&
      filterType in Catalog.TypeChips
    }

    /** The three state fields as one filter criteria value. */
    function CurrentCriteria(): Criteria
      reads this
    {
      Criteria(searchQuery, filterType, selectedDistrict)
    }

    /** The listings shown: the sample catalog under the current criteria. */
    function Shown(): (r: seq<Professional>)
      reads this
      ensures forall i :: 0 <= i < |r| ==> r[i] in Catalog.Professionals && Matches(r[i], CurrentCriteria())
      ensures forall p :: p in Catalog.Professionals && Matches(p, CurrentCriteria()) ==> p in r
    {
      FilterProfessionals(Catalog.Professionals, CurrentCriteria())
    }

    /** The component mounts hidden, with no query, type "All" and no district: it shows the whole catalog. */
    constructor ()
      ensures Valid() && fresh(latch) && !latch.isVisible
      ensures selectedDistrict == None && searchQuery == "" && filterType == "All"
      ensures Shown() == Catalog.Professionals
    {
      latch := new Reveal.RevealLatch();
      selectedDistrict := None;
      searchQuery := "";
      filterType := "All";
      new;
      FilterInitial(Catalog.Professionals);
    }

    /** A click on a district marker toggles that district. */
    method ClickDistrict(name: string)
      requires Valid() && name in Catalog.DistrictNames
      modifies this
      ensures Valid()
      ensures selectedDistrict == ToggleDistrict(old(selectedDistrict), name)
      ensures searchQuery == old(searchQuery) && filterType == old(filterType)
      ensures latch.isVisible == old(latch.isVisible)
    {
      selectedDistrict := if selectedDistrict == Some(name) then None else Some(name);
    }

    /** The "Clear" button drops the district selection. */
    method ClearDistrict()
      requires Valid()
      modifies this
      ensures Valid()
      ensures selectedDistrict == None
      ensures searchQuery == old(searchQuery) && filterType == old(filterType)
      ensures latch.isVisible == old(latch.isVisible)
    {
      selectedDistrict := None;
    }

    /** A type chip sets the type filter. */
    method SelectType(chip: string)
      requires Valid() && chip in Catalog.TypeChips
      modifies this
      ensures Valid()
      ensures filterType == chip
      ensures searchQuery == old(searchQuery) && selectedDistrict == old(selectedDistrict)
      ensures latch.isVisible == old(latch.isVisible)
    {
      filterType := chip;
    }

    /** Typing in the search box replaces the query with the input's text. */
    method SetSearchQuery(text: string)
      requires Valid()
      modifies this
      ensures Valid()
      ensures searchQuery == text
      ensures filterType == old(filterType) && selectedDistrict == old(selectedDistrict)
      ensures latch.isVisible == old(latch.isVisible)
    {
      searchQuery := text;
    }

    /** The viewport observer's callback; the criteria are untouched and the flag never falls back. */
    method OnIntersect(entries: seq<Reveal.Entry>)
      requires |entries| > 0
      modifies latch
      ensures latch.isVisible == Reveal.Observe(old(latch.isVisible), entries)
      ensures old(latch.isVisible) ==> latch.isVisible
      ensures searchQuery == old(searchQuery) && filterType == old(filterType)
      ensures selectedDistrict == old(selectedDistrict)
    {
      latch.OnIntersect(entries);
    }
  }

  /**
   * While a district is selected, every listing shown lies in it: the handlers
   * only ever select a marker's name, never the empty string that the filter
   * would treat as "no district".
   */
  lemma ShownInSelectedDistrict(section: YellowPages)
    requires section.Valid() && section.selectedDistrict.Some?
    ensures forall p :: p in section.Shown() ==> p.district == section.selectedDistrict.value
  {
    assert "" !in Catalog.DistrictNames;
  }

  /**
   * A session on a freshly mounted section: clicking the same district marker
   * twice selects and then deselects it, and the whole catalog is shown again.
   */
  method ClickTwiceRestores(name: string) returns (shown: seq<Professional>)
    requires name in Catalog.DistrictNames
    ensures shown == Catalog.Professionals
  {
    var section := new YellowPages();
    section.ClickDistrict(name);
    assert section.selectedDistrict == Some(name);
    section.ClickDistrict(name);
    shown := section.Shown();
  }
}
