/**
 * The static data of the Yellow Pages section: its district names, its type
 * chips and its sample listings, with the searches the page is meant to answer.
 */
module Catalog {
  import opened Text
  import opened Directory
  import Arrays

  /** The names of the district markers on the map, south to north. */
  const DistrictNames: seq<string> := [
    "Thiruvananthapuram", "Kollam", "Pathanamthitta", "Alappuzha", "Kottayam", "Idukki",
    "Ernakulam", "Thrissur", "Palakkad",
    "Malappuram", "Kozhikode", "Wayanad", "Kannur", "Kasaragod"]

  /** The type chips above the listings. */
  const TypeChips: seq<string> := ["All", "Therapist", "Psychologist", "Psychiatrist", "Centre"]

  const Anjali := Professional(1, "Dr. Anjali Menon", "Clinical Psychology, Anxiety & Depression",
    Psychologist, "Thiruvananthapuram", "Medical College, Thiruvananthapuram", "+91 471 2345678", 4.8)

  const MindCare := Professional(2, "MindCare Centre", "Comprehensive Mental Health Services",
    Centre, "Ernakulam", "MG Road, Kochi", "+91 484 2876543", 4.9)

  const Rajesh := Professional(3, "Dr. Rajesh Kumar", "Psychiatry, Addiction Medicine",
    Psychiatrist, "Kozhikode", "Beach Road, Kozhikode", "+91 495 2765432", 4.7)

  const Professionals: seq<Professional> := [Anjali, MindCare, Rajesh]

  /** Every listing's district has a marker on the map, and every chip but "All" names a kind. */
  lemma CatalogConsistent()
    ensures forall p :: p in Professionals ==> p.district in DistrictNames
    ensures forall t :: t in TypeChips && t != "All" ==> exists k :: KindName(k) == t
    ensures forall k :: KindName(k) in TypeChips
  {
    assert KindName(Therapist) == TypeChips[1];
    assert KindName(Psychologist) == TypeChips[2];
    assert KindName(Psychiatrist) == TypeChips[3];
    assert KindName(Centre) == TypeChips[4];
  }

  /** The map has one marker per district name. */
  lemma DistrictNamesDistinct()
    ensures forall i, j :: 0 <= i < j < |DistrictNames| ==> DistrictNames[i] != DistrictNames[j]
  {
  }

  /** Filtering the three sample listings decides each one on its own, in catalog order. */
  lemma FilterSample(c: Criteria)
    ensures FilterProfessionals(Professionals, c) ==
      (if Matches(Anjali, c) then [Anjali] else []) +
      (if Matches(MindCare, c) then [MindCare] else []) +
      (if Matches(Rajesh, c) then [Rajesh] else [])
  {
    Arrays.FilterThree(Anjali, MindCare, Rajesh, p => Matches(p, c));
  }

  // Where "kochi" occurs in the lowered searchable fields of the sample
  // listings; one fact per lemma keeps each proof small.

  lemma KochiNotInAnjaliName()
    ensures !Includes(Lower(Anjali.name), "kochi")
  {
    ExcludedByChar(Lower(Anjali.name), "kochi", 0);
  }

  lemma KochiNotInAnjaliSpecialization()
    ensures !Includes(Lower(Anjali.specialization), "kochi")
  {
    ExcludedByChar(Lower(Anjali.specialization), "kochi", 0);
  }

  lemma KochiNotInAnjaliLocation()
    ensures !Includes(Lower(Anjali.location), "kochi")
  {
    ExcludedByChar(Lower(Anjali.location), "kochi", 0);
  }

  lemma KochiInMindCareLocation()
    ensures Includes(Lower(MindCare.location), "kochi")
  {
    IncludesAt(Lower(MindCare.location), "kochi", 9);
  }

  lemma KochiNotInRajeshName()
    ensures !Includes(Lower(Rajesh.name), "kochi")
  {
    ExcludedByPrefix(Lower(Rajesh.name), "kochi");
  }

  lemma KochiNotInRajeshSpecialization()
    ensures !Includes(Lower(Rajesh.specialization), "kochi")
  {
    ExcludedByChar(Lower(Rajesh.specialization), "kochi", 0);
  }

  lemma KochiNotInRajeshLocation()
    ensures !Includes(Lower(Rajesh.location), "kochi")
  {
    ExcludedByPrefix(Lower(Rajesh.location), "kochi");
  }

  lemma KochiSkipsAnjali()
    ensures !Matches(Anjali, Initial.(query := "kochi"))
  {
    assert Lower("kochi") == "kochi";
    KochiNotInAnjaliName();
    KochiNotInAnjaliSpecialization();
    KochiNotInAnjaliLocation();
  }

  lemma KochiMatchesMindCare()
    ensures Matches(MindCare, Initial.(query := "kochi"))
  {
    assert Lower("kochi") == "kochi";
    KochiInMindCareLocation();
  }

  lemma KochiSkipsRajesh()
    ensures !Matches(Rajesh, Initial.(query := "kochi"))
  {
    assert Lower("kochi") == "kochi";
    KochiNotInRajeshName();
    KochiNotInRajeshSpecialization();
    KochiNotInRajeshLocation();
  }

  /** Searching "kochi" finds only MindCare Centre, through its location "MG Road, Kochi". */
  lemma KochiFindsMindCare()
    ensures FilterProfessionals(Professionals, Initial.(query := "kochi")) == [MindCare]
  {
    KochiSkipsAnjali();
    KochiMatchesMindCare();
    KochiSkipsRajesh();
    FilterSample(Initial.(query := "kochi"));
  }

  /** The "Psychiatrist" chip with an empty query finds only Dr. Rajesh Kumar. */
  lemma PsychiatristChipFindsRajesh()
    ensures FilterProfessionals(Professionals, Initial.(filterType := "Psychiatrist")) == [Rajesh]
  {
    FilterSample(Initial.(filterType := "Psychiatrist"));
    IncludesEmpty(Lower(Rajesh.name));
  }

  /** "ANJALI" and "anjali" give the same result on the sample catalog. */
  lemma AnjaliInEitherCase()
    ensures FilterProfessionals(Professionals, Initial.(query := "ANJALI"))
         == FilterProfessionals(Professionals, Initial.(query := "anjali"))
  {
    assert Lower("ANJALI") == Lower("anjali");
    FilterCaseInsensitive(Professionals, Initial.(query := "ANJALI"), "anjali");
  }
}
