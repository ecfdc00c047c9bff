/** The features page: six feature cards, and a modal for the selected feature found by id. */
module Features {
  import opened Wrappers
  import opened Seqs

  datatype Feature = Feature(id: string, title: string)

  const FeatureList: seq<Feature> := [
    Feature("namaste", "NAMASTE Terminology Integration"),
    Feature("icd11", "ICD-11 TM2 Mapping"),
    Feature("fhir", "FHIR & Indian EHR Compliance"),
    Feature("dual-coding", "Dual-Coding Support"),
    Feature("api", "Secure API & Data Privacy"),
    Feature("analytics", "Advanced Analytics")
  ]

  /** The ids, in card order. */
  function Ids(): (r: seq<string>)
    ensures |r| == |FeatureList| && forall i :: 0 <= i < |FeatureList| ==> r[i] == FeatureList[i].id
  {
    Map(FeatureList, (f: Feature) => f.id)
  }

  /** No two cards share an id, and no id is empty. */
  lemma IdsDistinct()
    ensures Distinct(Ids())
    ensures forall i :: 0 <= i < |FeatureList| ==> FeatureList[i].id != ""
  {
  }

  /** `features.find(f => f.id === selected)`; a null selection matches nothing. */
  function Lookup(selected: Option<string>): (r: Option<Feature>)
    ensures r.Some? ==> r.value in FeatureList && selected == Some(r.value.id)
    ensures r.None? <==> selected.None? || forall i :: 0 <= i < |FeatureList| ==> FeatureList[i].id != selected.value
  {
    match selected
    case None => None
    case Some(s) => Find(FeatureList, (f: Feature) => f.id == s)
  }

  /** The card at position `i` is exactly what looking up its id finds. */
  lemma LookupFindsCard(i: nat)
    requires i < |FeatureList|
    ensures Lookup(Some(FeatureList[i].id)) == Some(FeatureList[i])
  {
    IdsDistinct();
    var r := Lookup(Some(FeatureList[i].id));
    var j :| 0 <= j < |FeatureList| && FeatureList[j] == r.value;
    assert Ids()[j] == Ids()[i];
  }

  /** The selection, `null` as `None`. */
  datatype FeaturesPage = FeaturesPage(selected: Option<string>)

  const Initial := FeaturesPage(None)

  /** The modal renders when the selection is truthy (a non-empty string) and its lookup is defined. */
  predicate ModalShown(st: FeaturesPage)
  {
    st.selected.Some? && st.selected.value != "" && Lookup(st.selected).Some?
  }

  datatype FeaturesEvent = CardClicked(index: nat) | BackdropClicked | CloseClicked | PanelClicked

  /** One event: a card selects its id, the backdrop and the close button clear the selection, and a
      click inside the panel stops before reaching the backdrop. */
  function Step(st: FeaturesPage, ev: FeaturesEvent): (r: FeaturesPage)
    ensures ev.CardClicked? && ev.index < |FeatureList| ==> r.selected == Some(FeatureList[ev.index].id)
    ensures ev.BackdropClicked? || ev.CloseClicked? ==> r.selected.None? && !ModalShown(r)
    ensures ev.PanelClicked? ==> r == st
  {
    match ev
    case CardClicked(i) => if i < |FeatureList| then FeaturesPage(Some(FeatureList[i].id)) else st
    case BackdropClicked => FeaturesPage(None)
    case CloseClicked => FeaturesPage(None)
    case PanelClicked => st
  }

  /** Reachable states: nothing selected, or the id of some card. */
  ghost predicate Inv(st: FeaturesPage)
  {
    st.selected.Some? ==> exists i :: 0 <= i < |FeatureList| && FeatureList[i].id == st.selected.value
  }

  lemma InitialInv()
    ensures Inv(Initial)
  {
  }

  lemma StepInv(st: FeaturesPage, ev: FeaturesEvent)
    requires Inv(st)
    ensures Inv(Step(st, ev))
  {
  }

  /** In reachable states a selection always finds its feature, so the modal shows exactly while something is selected. */
  lemma ModalIffSelected(st: FeaturesPage)
    requires Inv(st)
    ensures st.selected.Some? ==> Lookup(st.selected).Some? && Lookup(st.selected).value.id == st.selected.value
    ensures ModalShown(st) <==> st.selected.Some?
  {
    IdsDistinct();
  }
}
