# Mindo Yellow Pages: the professional directory

The Mindo Health website has a "Yellow Pages" section: a map of the fourteen
districts of Kerala beside a list of mental-health professionals. The visitor
narrows the list in three ways:

- a free-text search, matched without regard to letter case against each
  listing's name, specialization and location;
- a row of type chips ("All", "Therapist", "Psychologist", "Psychiatrist",
  "Centre");
- a click on a district marker, which selects that district or, when it is
  already selected, clears the selection again. A "Clear" button also clears it.

The list shown is the sample catalog, filtered by all three criteria at once,
in catalog order. Like the other sections below the hero, this one fades in the first
time the browser's viewport observer reports it on screen. It never fades out
again.

The model has six modules:

- `Text`: the string operations the search uses. These are `toLowerCase`,
  restricted to ASCII letters, and `includes`, specified as "some offset holds
  the query".
- `Arrays`: `Array.prototype.filter` on value sequences. Its lemmas cover order,
  multiplicity, concatenation and filtering twice.
- `Directory`: the listing record, the criteria, the filter predicate, and the
  district toggle.
- `Catalog`: the district names, the type chips and the three sample listings,
  with the searches the section answers on them.
- `Reveal`: the one-way `isVisible` latch.
- `YellowPagesSection`: the component as a class. Its fields are the latch and
  the three criteria, and its methods are the event handlers.

## Model

| member | source | states |
|---|---|---|
| Text.LowerChar | src/components/sections/MindoYellowPagesSection.tsx:108-110 | the lowered character is never an ASCII capital; it is the input or that capital's small letter |
| Text.Lower | src/components/sections/MindoYellowPagesSection.tsx:108-110 | lowering keeps the length and lowers each character in place |
| Text.LowerIdempotent | src/components/sections/MindoYellowPagesSection.tsx:108-110 | lowering twice is lowering once |
| Text.CaseVariantSameUpToCase | src/components/sections/MindoYellowPagesSection.tsx:107-110 | strings that differ at most in the letter case of each character have the same lowered form |
| Text.LowerAppend | src/components/sections/MindoYellowPagesSection.tsx:108-110 | lowering a concatenation is concatenating the lowered parts |
| Text.Includes | src/components/sections/MindoYellowPagesSection.tsx:108-110 | `includes` holds exactly when some offset of the string holds the query |
| Text.IncludesEmpty | src/components/sections/MindoYellowPagesSection.tsx:106-115 | every string includes the empty query |
| Text.IncludesAt | src/components/sections/MindoYellowPagesSection.tsx:108-110 | an offset that holds the query character by character makes `includes` true |
| Text.ExcludedByPrefix | src/components/sections/MindoYellowPagesSection.tsx:108-110 | if the query's first three characters never appear consecutively, `includes` is false |
| Text.ExcludedByChar | src/components/sections/MindoYellowPagesSection.tsx:108-110 | if one character of the query appears nowhere in the string, `includes` is false |
| Arrays.Filter | src/components/sections/MindoYellowPagesSection.tsx:106 | `filter` returns no more elements than it is given |
| Arrays.FilterMembers | src/components/sections/MindoYellowPagesSection.tsx:106-115 | each result element is an input element the callback keeps, and each kept input element is in the result |
| Arrays.FilterCons | src/components/sections/MindoYellowPagesSection.tsx:106-115 | `filter` decides the first element and continues with the rest |
| Arrays.FilterThree | src/components/sections/MindoYellowPagesSection.tsx:73-115 | on three elements `filter` decides each one on its own, in order |
| Arrays.FilterPositions | src/components/sections/MindoYellowPagesSection.tsx:106-115 | the result is an order-preserving selection: strictly increasing input positions produce it, and a position is among them exactly when its element is kept |
| Arrays.FilterMultiplicity | src/components/sections/MindoYellowPagesSection.tsx:106-115 | a kept element occurs as often as in the input, a rejected one not at all |
| Arrays.FilterAppend | src/components/sections/MindoYellowPagesSection.tsx:106-115 | filtering a concatenation concatenates the filtered parts |
| Arrays.FilterKeepsAll | src/components/sections/MindoYellowPagesSection.tsx:106-115 | a callback that keeps everything returns the input unchanged |
| Arrays.FilterAgreeing | src/components/sections/MindoYellowPagesSection.tsx:106-115 | callbacks that agree on the input give the same result |
| Arrays.FilterTwice | src/components/sections/MindoYellowPagesSection.tsx:106-115 | filtering by one callback and then another equals filtering once by their conjunction |
| Directory.KindName | src/components/sections/MindoYellowPagesSection.tsx:7 | no kind is named "All", so the wildcard never clashes with a kind |
| Directory.KindNameInjective | src/components/sections/MindoYellowPagesSection.tsx:7 | distinct kinds have distinct names, so a type filter singles out one kind |
| Directory.FilterProfessionals | src/components/sections/MindoYellowPagesSection.tsx:106-115 | a listing is shown exactly when it is in the catalog and matches search, type and district together; the result is no longer than the catalog. The three tests are `Directory.MatchesSearch` (lines 107-110), `Directory.MatchesType` (line 111), and `Directory.NoDistrict` with `Directory.MatchesDistrict` (lines 112-113), where `!selectedDistrict` also accepts the empty string |
| Directory.FilterKeepsOrder | src/components/sections/MindoYellowPagesSection.tsx:106-115 | the listings shown keep their catalog order: strictly increasing catalog positions produce them, and a position is among them exactly when its listing matches |
| Directory.FilterInitial | src/components/sections/MindoYellowPagesSection.tsx:23-25 | with query "", type "All" and no district, the whole catalog is shown, in order |
| Directory.FilterCaseInsensitive | src/components/sections/MindoYellowPagesSection.tsx:107-110 | queries with the same lowered form, in particular queries that differ only in letter case (Text.CaseVariantSameUpToCase), give identical results |
| Directory.FilterNarrowsByDistrict | src/components/sections/MindoYellowPagesSection.tsx:112-113 | selecting a district keeps, in order, exactly the listings in that district from those shown with no district |
| Directory.FilterNarrowsByType | src/components/sections/MindoYellowPagesSection.tsx:111 | choosing a kind's chip keeps, in order, exactly the listings of that kind from those shown under "All" |
| Directory.ToggleDistrict | src/components/sections/MindoYellowPagesSection.tsx:202-208 | clicking a marker clears the selection exactly when that district is selected, and otherwise selects it |
| Directory.ToggleTwice | src/components/sections/MindoYellowPagesSection.tsx:202-208 | two clicks on the same marker, starting from any other selection, end with no district |
| Directory.ToggleOther | src/components/sections/MindoYellowPagesSection.tsx:202-208 | after one marker, a click on a different marker selects the latter |
| Catalog.CatalogConsistent | src/components/sections/MindoYellowPagesSection.tsx:51-104 | every listing's district has a marker, every chip but "All" names a kind, and every kind has a chip |
| Catalog.DistrictNamesDistinct | src/components/sections/MindoYellowPagesSection.tsx:51-71 | the fourteen district names are pairwise distinct |
| Catalog.FilterSample | src/components/sections/MindoYellowPagesSection.tsx:73-115 | on the sample catalog each listing is shown or not on its own, in catalog order |
| Catalog.KochiNotInAnjaliName | src/components/sections/MindoYellowPagesSection.tsx:76 | "kochi" is not in the lowered name of the first listing |
| Catalog.KochiNotInAnjaliSpecialization | src/components/sections/MindoYellowPagesSection.tsx:77 | "kochi" is not in the lowered specialization of the first listing |
| Catalog.KochiNotInAnjaliLocation | src/components/sections/MindoYellowPagesSection.tsx:80 | "kochi" is not in the lowered location of the first listing |
| Catalog.KochiInMindCareLocation | src/components/sections/MindoYellowPagesSection.tsx:90 | "kochi" is in the lowered location "mg road, kochi" |
| Catalog.KochiNotInRajeshName | src/components/sections/MindoYellowPagesSection.tsx:96 | "kochi" is not in the lowered name of the third listing |
| Catalog.KochiNotInRajeshSpecialization | src/components/sections/MindoYellowPagesSection.tsx:97 | "kochi" is not in the lowered specialization of the third listing |
| Catalog.KochiNotInRajeshLocation | src/components/sections/MindoYellowPagesSection.tsx:100 | "kochi" is not in the lowered location of the third listing |
| Catalog.KochiSkipsAnjali | src/components/sections/MindoYellowPagesSection.tsx:74-83 | the search "kochi" rejects Dr. Anjali Menon |
| Catalog.KochiMatchesMindCare | src/components/sections/MindoYellowPagesSection.tsx:84-93 | the search "kochi" accepts MindCare Centre |
| Catalog.KochiSkipsRajesh | src/components/sections/MindoYellowPagesSection.tsx:94-103 | the search "kochi" rejects Dr. Rajesh Kumar |
| Catalog.KochiFindsMindCare | src/components/sections/MindoYellowPagesSection.tsx:73-115 | the search "kochi" shows only MindCare Centre |
| Catalog.PsychiatristChipFindsRajesh | src/components/sections/MindoYellowPagesSection.tsx:73-115 | the "Psychiatrist" chip with an empty query shows only Dr. Rajesh Kumar |
| Catalog.AnjaliInEitherCase | src/components/sections/MindoYellowPagesSection.tsx:107-110 | the searches "ANJALI" and "anjali" show the same listings |
| Reveal.Observe | src/components/sections/MindoYellowPagesSection.tsx:30-34 | one callback never clears the flag, sets it when the first entry intersects, and changes nothing otherwise |
| Reveal.RunKeepsRevealed | src/components/sections/MindoYellowPagesSection.tsx:28-49 | once visible, no sequence of callbacks hides the section |
| Reveal.RunRevealsOnIntersection | src/components/sections/MindoYellowPagesSection.tsx:28-49 | after a run of callbacks the flag is set exactly when it started set or some callback's first entry intersected |
| Reveal.RunAppend | src/components/sections/MindoYellowPagesSection.tsx:28-49 | two stretches of callbacks run one after the other equal one run of both |
| Reveal.RevealLatch.constructor | src/components/sections/MindoYellowPagesSection.tsx:22 | a section mounts hidden |
| Reveal.RevealLatch.OnIntersect | src/components/sections/MindoYellowPagesSection.tsx:30-34 | the flag becomes the callback's result and never falls from true to false |
| YellowPagesSection.YellowPages.Shown | src/components/sections/MindoYellowPagesSection.tsx:106-115 | the listings shown are exactly the catalog entries that match the current criteria |
| YellowPagesSection.YellowPages.constructor | src/components/sections/MindoYellowPagesSection.tsx:22-25 | the section mounts hidden, with query "", type "All" and no district, and shows the whole catalog |
| YellowPagesSection.YellowPages.ClickDistrict | src/components/sections/MindoYellowPagesSection.tsx:202-208 | a marker click toggles that district and changes no other state |
| YellowPagesSection.YellowPages.ClearDistrict | src/components/sections/MindoYellowPagesSection.tsx:255 | "Clear" sets no district and changes no other state |
| YellowPagesSection.YellowPages.SelectType | src/components/sections/MindoYellowPagesSection.tsx:307-316 | a chip sets the type filter to its label and changes no other state |
| YellowPagesSection.YellowPages.SetSearchQuery | src/components/sections/MindoYellowPagesSection.tsx:287 | typing sets the query to the input's text and changes no other state |
| YellowPagesSection.YellowPages.OnIntersect | src/components/sections/MindoYellowPagesSection.tsx:28-49 | the viewport callback updates only the latch, which never falls back |
| YellowPagesSection.ShownInSelectedDistrict | src/components/sections/MindoYellowPagesSection.tsx:112-113 | in any state the handlers reach, while a district is selected every listing shown lies in that district |
| YellowPagesSection.ClickTwiceRestores | src/components/sections/MindoYellowPagesSection.tsx:202-208 | on a fresh section, two clicks on the same marker show the whole catalog again |

## Left out

- The viewport observer itself is left out: its construction, `observe` and `unobserve`, and its threshold. These are a browser API that calls back asynchronously. Its callbacks become the entry batches passed to `OnIntersect`, and each batch is assumed non-empty because the callback reads its first entry. The same latch, differing only in its threshold, appears in the nine observer-driven sections: ContactLocation, CorporateWellbeing, DesignedWithIntention, FeelingOverwhelmed, MindoCareUnits, MindoYellowPages, Stats (e.g. src/components/sections/StatsSection.tsx:15-36), SupportiveCommunity and WhyMindoHealth. `Reveal.RevealLatch` models each copy.
- Browsers without a viewport observer are left out. The code has no fallback for them, so the model has none either.
- The district markers' `x`/`y` coordinates and `professionals` counts are left out. They only place and label markers, and nothing checks the counts against the catalog.
- The star rendering with `Math.floor(prof.rating)` is left out: it is floating-point presentation. The rating is kept as a `real` field that takes no part in filtering.
- Text.Lower: lowers ASCII capitals only. JavaScript's `toLowerCase` also lowers non-ASCII letters. None of the catalog strings contain any, but a query can: the Kelvin sign U+212A lowers to an ASCII "k" in JavaScript, so a query that starts with it can find a listing in the browser that the model does not find.
- CSS classes, transition delays and the rest of the markup are left out as presentation.
- Rendering is left out: the list is a function of the state (`Shown`), and React re-renders on each state change.
- The district in the criteria is an `Option<string>`. The code tests `!selectedDistrict`, which is also true for the empty string, so `Some("")` acts as "no district" (`Directory.NoDistrict`). The handlers never store `""`: `YellowPages.Valid` states that every selected district is a marker name, and `YellowPagesSection.ShownInSelectedDistrict` uses it to show that a selection always narrows the list to its district.
