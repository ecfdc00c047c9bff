/** The demo terminology records and the case-insensitive suggestion filter
    shared by the two React search bars. */
module Diseases {
  import opened Text
  import opened Seqs

  /** One demo record: English name, NAMASTE code, ICD-11 TM2 code and a description. */
  datatype Disease = Disease(name: string, namaste: string, icd11: string, description: string)

  /** The eight records behind the landing-page search bar. */
  const SearchBarDiseases: seq<Disease> := [
    Disease("Diabetes Mellitus", "NAM-DM-001", "EE90.0", "A group of disorders characterized by high blood glucose levels"),
    Disease("Hypertension", "NAM-HTN-002", "EE91.1", "Persistent high blood pressure in the arteries"),
    Disease("Asthma", "NAM-AST-003", "CA23.0", "Respiratory condition marked by spasms in the bronchi"),
    Disease("Migraine", "NAM-MIG-004", "8A80.1", "Neurological condition characterized by recurrent headaches"),
    Disease("Rheumatoid Arthritis", "NAM-RA-005", "FA20.0", "Autoimmune inflammatory disease affecting joints"),
    Disease("Vata Vyadhi", "NAM-VV-101", "QD85.0", "Traditional Ayurvedic condition related to Vata dosha imbalance"),
    Disease("Pitta Vikar", "NAM-PV-102", "QD85.1", "Ayurvedic disorder associated with Pitta dosha excess"),
    Disease("Kapha Dosha Dushti", "NAM-KDD-103", "QD85.2", "Ayurvedic condition from Kapha dosha vitiation")
  ]

  /** The four records behind the simplified landing page's search bar. */
  const SimpleLandingDiseases: seq<Disease> := [
    Disease("Diabetes Mellitus", "NAM-DM-001", "EE90.0", "A group of disorders characterized by high blood glucose levels"),
    Disease("Hypertension", "NAM-HTN-002", "EE91.1", "Persistent high blood pressure in the arteries"),
    Disease("Asthma", "NAM-AST-003", "CA23.0", "Respiratory condition marked by spasms in the bronchi"),
    Disease("Vata Vyadhi", "NAM-VV-101", "QD85.0", "Traditional Ayurvedic condition related to Vata dosha imbalance")
  ]

  /** The three records of the basic landing page in the application shell; they carry no description. */
  const AppDiseases: seq<Disease> := [
    Disease("Diabetes Mellitus", "NAM-DM-001", "EE90.0", ""),
    Disease("Hypertension", "NAM-HTN-002", "EE91.1", ""),
    Disease("Vata Vyadhi", "NAM-VV-101", "QD85.0", "")
  ]

  /** The suggestion test: the lower-cased term occurs in the lower-cased name, NAMASTE code or ICD-11 code. */
  predicate Matches(d: Disease, term: string)
  {
    var t := Lower(term);
    Includes(Lower(d.name), t) || Includes(Lower(d.namaste), t) || Includes(Lower(d.icd11), t)
  }

  /** The filtered list for a term: every matching record, in dataset order. */
  function Suggestions(data: seq<Disease>, term: string): (r: seq<Disease>)
    ensures forall d :: d in r <==> d in data && Matches(d, term)
    ensures forall d :: multiset(r)[d] == if Matches(d, term) then multiset(data)[d] else 0
    ensures IsSubsequence(r, data)
    ensures |r| <= |data|
  {
    Keep(data, d => Matches(d, term))
  }

  /** Every record matches its own name, NAMASTE code and ICD-11 code. */
  lemma OwnFieldsMatch(d: Disease)
    ensures Matches(d, d.name) && Matches(d, d.namaste) && Matches(d, d.icd11)
  {
    IncludesSelf(Lower(d.name));
    IncludesSelf(Lower(d.namaste));
    IncludesSelf(Lower(d.icd11));
  }

  /** Every record in the data is suggested for its own name. */
  lemma OwnNameSuggested(data: seq<Disease>, d: Disease)
    requires d in data
    ensures d in Suggestions(data, d.name)
  {
    OwnFieldsMatch(d);
  }

  /** Matching ignores case: terms equal after lower-casing give the same suggestions. */
  lemma SuggestionsIgnoreCase(data: seq<Disease>, t1: string, t2: string)
    requires Lower(t1) == Lower(t2)
    ensures Suggestions(data, t1) == Suggestions(data, t2)
  {
    KeepCongruent(data, d => Matches(d, t1), d => Matches(d, t2));
  }

  /** NAMASTE codes are pairwise distinct, so they can serve as row keys. */
  predicate NamasteKeysDistinct(data: seq<Disease>)
  {
    forall i, j :: 0 <= i < j < |data| ==> data[i].namaste != data[j].namaste
  }

  lemma DatasetKeysDistinct()
    ensures NamasteKeysDistinct(SearchBarDiseases)
    ensures NamasteKeysDistinct(SimpleLandingDiseases)
    ensures NamasteKeysDistinct(AppDiseases)
  {
  }

  /** The suggestion rows keep distinct keys: a filtered list inherits key distinctness. */
  lemma {:induction false} SuggestionKeysDistinct(data: seq<Disease>, term: string)
    requires NamasteKeysDistinct(data)
    ensures NamasteKeysDistinct(Suggestions(data, term))
  {
    assert Distinct(data) by {
      forall i, j | 0 <= i < j < |data| ensures data[i] != data[j] {
        assert data[i].namaste != data[j].namaste;
      }
    }
    KeepDistinct(data, d => Matches(d, term));
    var r := Suggestions(data, term);
    forall i, j | 0 <= i < j < |r| ensures r[i].namaste != r[j].namaste {
      assert r[i] in data && r[j] in data;
      var a :| 0 <= a < |data| && data[a] == r[i];
      var b :| 0 <= b < |data| && data[b] == r[j];
      assert a != b;
    }
  }
}
