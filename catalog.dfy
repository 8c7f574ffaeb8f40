/**
 * The tagged option / step / definition structure of a booking flow, the salon's concrete
 * catalog (`frizerieFlow`) and the specialist catalog keyed by category, with the
 * structural invariants the flow engine relies on.
 */
module Catalog {
  import opened Wrappers
  import opened Ordered

  datatype SelectionType = Single | Multi

  /**
   * One choice on a step. A branch option (`hasChildren`) leads to the step named by
   * `nextStepId`; a leaf option is a bookable service with a price and a duration.
   */
  datatype FlowOption = FlowOption(
    id: string,
    labelText: string,
    description: Option<string>,
    hasChildren: bool,
    nextStepId: Option<string>,
    price: Option<int>,
    durationMinutes: Option<int>,
    isDisabled: Option<bool>,
    specialistCategoryId: Option<string>)

  datatype FlowStep = FlowStep(
    id: string,
    title: string,
    subtitle: Option<string>,
    selectionType: SelectionType,
    options: seq<FlowOption>)

  /** `steps` is the JavaScript record from step key to step. */
  datatype FlowDefinition = FlowDefinition(rootStepId: string, steps: map<string, FlowStep>)

  /** A specialist; the display-only rating and first available date are not modelled. */
  datatype SpecialistOption = SpecialistOption(id: string, name: string)

  datatype SpecialistCatalogEntry = SpecialistCatalogEntry(labelText: string, options: seq<SpecialistOption>)

  /** `!option.isDisabled`. */
  predicate IsEnabled(o: FlowOption) {
    o.isDisabled != Some(true)
  }

  /** Option `o` is followed by the descendant walk: it has children and its next step exists. */
  predicate Follows(def: FlowDefinition, o: FlowOption) {
    o.hasChildren && Truthy(o.nextStepId) && o.nextStepId.value in def.steps
  }

  /** Option position `i` exists on the step stored under key `k`. */
  predicate HasOption(def: FlowDefinition, k: string, i: int) {
    k in def.steps && 0 <= i < |def.steps[k].options|
  }

  function OptionAt(def: FlowDefinition, k: string, i: int): FlowOption
    requires HasOption(def, k, i)
  {
    def.steps[k].options[i]
  }

  // ---------------------------------------------------------------------------
  // Structural invariants of a flow definition.

  /** Every step is stored under its own id. */
  ghost predicate KeysMatchIds(def: FlowDefinition) {
    forall k :: k in def.steps ==> def.steps[k].id == k
  }

  ghost predicate RootIsStep(def: FlowDefinition) {
    def.rootStepId in def.steps
  }

  /** Every branch option names a step that exists. */
  ghost predicate BranchesResolve(def: FlowDefinition) {
    forall k, i :: HasOption(def, k, i) && OptionAt(def, k, i).hasChildren ==>
      Truthy(OptionAt(def, k, i).nextStepId) && OptionAt(def, k, i).nextStepId.value in def.steps
  }

  /** Every enabled leaf has a price and a duration. */
  ghost predicate EnabledLeavesPriced(def: FlowDefinition) {
    forall k, i :: HasOption(def, k, i) && !OptionAt(def, k, i).hasChildren && IsEnabled(OptionAt(def, k, i)) ==>
      OptionAt(def, k, i).price.Some? && OptionAt(def, k, i).durationMinutes.Some?
  }

  /** A disabled option leads nowhere. */
  ghost predicate DisabledInert(def: FlowDefinition) {
    forall k, i :: HasOption(def, k, i) && !IsEnabled(OptionAt(def, k, i)) ==>
      !OptionAt(def, k, i).hasChildren && OptionAt(def, k, i).nextStepId.None?
  }

  /** Only branch options name a next step, and the step they name exists. */
  ghost predicate NextStepsOnBranches(def: FlowDefinition) {
    forall k, i :: HasOption(def, k, i) && Truthy(OptionAt(def, k, i).nextStepId) ==> Follows(def, OptionAt(def, k, i))
  }

  /** No option id occurs twice, within a step or across steps. */
  ghost predicate OptionIdsDistinct(def: FlowDefinition) {
    forall k1, i1, k2, i2 ::
      HasOption(def, k1, i1) && HasOption(def, k2, i2) && OptionAt(def, k1, i1).id == OptionAt(def, k2, i2).id ==>
        k1 == k2 && i1 == i2
  }

  /**
   * `rank` witnesses acyclicity: every followed option leads to a step of strictly
   * smaller rank, so following `nextStepId` never comes back to a step.
   */
  ghost predicate RankedBy(def: FlowDefinition, rank: map<string, nat>) {
    (forall k :: k in def.steps ==> k in rank) &&
    (forall k, i :: HasOption(def, k, i) && Follows(def, OptionAt(def, k, i)) ==>
      rank[OptionAt(def, k, i).nextStepId.value] < rank[k])
  }

  /** Every specialist category an option names has an entry in `catalog`. */
  ghost predicate CategoriesKnown(def: FlowDefinition, catalog: map<string, SpecialistCatalogEntry>) {
    forall k, i :: HasOption(def, k, i) && OptionAt(def, k, i).specialistCategoryId.Some? ==>
      OptionAt(def, k, i).specialistCategoryId.value in catalog
  }

  // ---------------------------------------------------------------------------
  // The salon's catalog.

  function Branch(id: string, labelText: string, description: string, next: string, category: Option<string>): FlowOption {
    FlowOption(id, labelText, Some(description), true, Some(next), None, None, None, category)
  }

  function Leaf(id: string, labelText: string, price: int, minutes: int, category: string): FlowOption {
    FlowOption(id, labelText, None, false, None, Some(price), Some(minutes), None, Some(category))
  }

  function Unavailable(id: string, labelText: string): FlowOption {
    FlowOption(id, labelText, Some("Disponibil în curând"), false, None, None, None, Some(true), None)
  }

  const RootStep: FlowStep := FlowStep(
    "root", "Alege serviciile dorite", Some("Poți selecta una sau mai multe categorii"), Multi, [
      Branch("frizerie", "Frizerie", "Tuns, barbă, colorări profesionale", "frizerie-main", None),
      Branch("coafor", "Coafor", "Coafat, extensii, tratamente profesionale", "coafor-main", None),
      Unavailable("manichiura-pedichiura", "Manichiură & Pedichiură"),
      Unavailable("gene", "Gene"),
      Unavailable("machiaj", "Machiaj"),
      Unavailable("cosmetica", "Cosmetică"),
      Unavailable("permanent-makeup", "Permanent Make-up")
    ])

  const FrizerieMainStep: FlowStep := FlowStep(
    "frizerie-main", "Frizerie", Some("Alege categoriile de servicii dorite"), Multi, [
      Branch("frizerie-tuns", "Tuns", "Servicii de tuns și styling", "frizerie-tuns", Some("frizerie-tuns")),
      Branch("frizerie-barba", "Barbă", "Aranjare și contur", "frizerie-barba", Some("frizerie-barba")),
      Branch("frizerie-vopsit", "Vopsit", "Opțiuni de colorare", "frizerie-vopsit", Some("frizerie-vopsit"))
    ])

  const FrizerieTunsStep: FlowStep := FlowStep(
    "frizerie-tuns", "Tuns (alege una dintre opțiuni)", None, Single, [
      Leaf("tuns-simplu", "Tuns simplu", 70, 30, "frizerie-tuns"),
      Leaf("tuns-styling", "Tuns + styling", 100, 45, "frizerie-tuns"),
      Leaf("tuns-spalat-styling", "Tuns + spălat + styling", 130, 60, "frizerie-tuns")
    ])

  const FrizerieBarbaStep: FlowStep := FlowStep(
    "frizerie-barba", "Barbă (alege una dintre opțiuni)", None, Single, [
      Leaf("barba-simpla", "Barbă simplă", 50, 20, "frizerie-barba"),
      Leaf("barba-contur", "Barbă + contur", 70, 30, "frizerie-barba")
    ])

  const FrizerieVopsitStep: FlowStep := FlowStep(
    "frizerie-vopsit", "Vopsit (alege una dintre opțiuni)", None, Single, [
      Leaf("vopsit-par", "Vopsit păr", 180, 60, "frizerie-vopsit"),
      Leaf("vopsit-barba", "Vopsit barbă", 90, 30, "frizerie-vopsit"),
      Leaf("vopsit-par-barba", "Vopsit păr + barbă", 260, 90, "frizerie-vopsit")
    ])

  const CoaforMainStep: FlowStep := FlowStep(
    "coafor-main", "Coafor", Some("Selectează una sau mai multe categorii"), Multi, [
      Branch("coafor-coafat", "Coafat", "Servicii de styling pentru orice ocazie", "coafor-coafat", Some("coafor-coafat")),
      Branch("coafor-extensii", "Extensii", "Montaj, întreținere și îndepărtare", "coafor-extensii", Some("coafor-extensii")),
      Branch("coafor-tratamente", "Tratamente", "Terapie intensivă pentru păr", "coafor-tratamente", Some("coafor-tratamente")),
      Branch("coafor-tuns", "Tuns", "Întreținere și redefinire", "coafor-tuns", Some("coafor-tuns"))
    ])

  const CoaforCoafatStep: FlowStep := FlowStep(
    "coafor-coafat", "Coafat (alege una dintre opțiuni)", None, Single, [
      Leaf("coafat-par-scurt", "Spălat + coafat păr scurt (până la bărbie)", 190, 60, "coafor-coafat"),
      Leaf("coafat-par-mediu", "Spălat + coafat păr mediu (până la umeri)", 250, 75, "coafor-coafat"),
      Leaf("coafat-par-lung", "Spălat + coafat păr lung (sub umeri)", 320, 90, "coafor-coafat"),
      Leaf("coafat-ocazie", "Coafat ocazie", 380, 110, "coafor-coafat"),
      Leaf("coafat-mireasa", "Coafat mireasă", 520, 150, "coafor-coafat")
    ])

  const CoaforExtensiiStep: FlowStep := FlowStep(
    "coafor-extensii", "Extensii (alege una dintre opțiuni)", None, Single, [
      Branch("coafor-extensii-montat", "Montat extensii", "Alege tipul de montaj", "coafor-extensii-montat", Some("coafor-extensii")),
      Branch("coafor-extensii-intretinere", "Întreținere extensii", "Service periodic pentru extensii", "coafor-extensii-intretinere", Some("coafor-extensii")),
      Branch("coafor-extensii-indepartare", "Îndepărtare extensii", "Demontare sigură", "coafor-extensii-indepartare", Some("coafor-extensii"))
    ])

  const MontatStep: FlowStep := FlowStep(
    "coafor-extensii-montat", "Montat extensii (alege una dintre opțiuni)", None, Single, [
      Leaf("montat-tape-on", "Tape-on (bandă adezivă)", 700, 180, "coafor-extensii"),
      Leaf("montat-microring", "Microring / Keratină", 900, 210, "coafor-extensii"),
      Leaf("montat-extensii-proprii", "Extensii proprii", 600, 150, "coafor-extensii")
    ])

  const IntretinereStep: FlowStep := FlowStep(
    "coafor-extensii-intretinere", "Întreținere extensii (alege una dintre opțiuni)", None, Single, [
      Leaf("intretinere-1-pachet", "1 pachet (volum ușor)", 250, 90, "coafor-extensii"),
      Leaf("intretinere-2-pachete", "2 pachete (volum + lungime medie)", 400, 120, "coafor-extensii"),
      Leaf("intretinere-3-plus-pachete", "3+ pachete (păr foarte lung sau des)", 550, 150, "coafor-extensii")
    ])

  const IndepartareStep: FlowStep := FlowStep(
    "coafor-extensii-indepartare", "Îndepărtare extensii (alege una dintre opțiuni)", None, Single, [
      Leaf("indepartare-tape-on", "Tape-on", 200, 60, "coafor-extensii"),
      Leaf("indepartare-microring", "Microring / Keratină", 300, 90, "coafor-extensii")
    ])

  const CoaforTratamenteStep: FlowStep := FlowStep(
    "coafor-tratamente", "Tratamente (alege una dintre opțiuni)", None, Single, [
      Leaf("tratament-911-quinoa", "911 Quinoa Revival", 220, 60, "coafor-tratamente"),
      Leaf("tratament-kerastase-booster", "Kérastase Booster", 250, 45, "coafor-tratamente"),
      Leaf("tratament-tahe-botox", "Tahe Botox", 320, 75, "coafor-tratamente"),
      Leaf("tratament-joico-kpak", "Joico K-Pak (4 pași)", 350, 90, "coafor-tratamente"),
      Leaf("tratament-wellaplex", "Wellaplex", 280, 60, "coafor-tratamente")
    ])

  const CoaforTunsStep: FlowStep := FlowStep(
    "coafor-tuns", "Tuns (alege una dintre opțiuni)", None, Single, [
      Leaf("coafor-tuns-varfuri", "Tuns vârfuri", 120, 45, "coafor-tuns"),
      Leaf("coafor-tuns-forma", "Tuns formă", 180, 60, "coafor-tuns")
    ])

  const FrizerieSteps: map<string, FlowStep> := map[
    "root" := RootStep,
    "frizerie-main" := FrizerieMainStep,
    "frizerie-tuns" := FrizerieTunsStep,
    "frizerie-barba" := FrizerieBarbaStep,
    "frizerie-vopsit" := FrizerieVopsitStep,
    "coafor-main" := CoaforMainStep,
    "coafor-coafat" := CoaforCoafatStep,
    "coafor-extensii" := CoaforExtensiiStep,
    "coafor-extensii-montat" := MontatStep,
    "coafor-extensii-intretinere" := IntretinereStep,
    "coafor-extensii-indepartare" := IndepartareStep,
    "coafor-tratamente" := CoaforTratamenteStep,
    "coafor-tuns" := CoaforTunsStep
  ]

  /**
   * The step key and position at which the catalog lists each option id, read off the
   * literal. The lookup goes by length first; it exists only to prove the ids distinct.
   */
  function CatalogOwner(id: string): (string, nat) {
    match |id|
    case 4 =>
        if id == "gene" then ("root", 3)
        else ("", 0)
    case 6 =>
        if id == "coafor" then ("root", 1)
        else ("", 0)
    case 7 =>
        if id == "machiaj" then ("root", 4)
        else ("", 0)
    case 8 =>
        if id == "frizerie" then ("root", 0)
        else ("", 0)
    case 9 =>
        if id == "cosmetica" then ("root", 5)
        else ("", 0)
    case 10 =>
        if id == "vopsit-par" then ("frizerie-vopsit", 0)
        else ("", 0)
    case 11 =>
        if id == "tuns-simplu" then ("frizerie-tuns", 0)
        else if id == "coafor-tuns" then ("coafor-main", 3)
        else ("", 0)
    case 12 =>
        if id == "tuns-styling" then ("frizerie-tuns", 1)
        else if id == "barba-simpla" then ("frizerie-barba", 0)
        else if id == "barba-contur" then ("frizerie-barba", 1)
        else if id == "vopsit-barba" then ("frizerie-vopsit", 1)
        else ("", 0)
    case 13 =>
        if id == "frizerie-tuns" then ("frizerie-main", 0)
        else if id == "coafor-coafat" then ("coafor-main", 0)
        else if id == "coafat-ocazie" then ("coafor-coafat", 3)
        else ("", 0)
    case 14 =>
        if id == "frizerie-barba" then ("frizerie-main", 1)
        else if id == "coafat-mireasa" then ("coafor-coafat", 4)
        else if id == "montat-tape-on" then ("coafor-extensii-montat", 0)
        else ("", 0)
    case 15 =>
        if id == "frizerie-vopsit" then ("frizerie-main", 2)
        else if id == "coafor-extensii" then ("coafor-main", 1)
        else if id == "coafat-par-lung" then ("coafor-coafat", 2)
        else ("", 0)
    case 16 =>
        if id == "permanent-makeup" then ("root", 6)
        else if id == "vopsit-par-barba" then ("frizerie-vopsit", 2)
        else if id == "coafat-par-scurt" then ("coafor-coafat", 0)
        else if id == "coafat-par-mediu" then ("coafor-coafat", 1)
        else if id == "montat-microring" then ("coafor-extensii-montat", 1)
        else ("", 0)
    case 17 =>
        if id == "coafor-tratamente" then ("coafor-main", 2)
        else if id == "coafor-tuns-forma" then ("coafor-tuns", 1)
        else ("", 0)
    case 19 =>
        if id == "tuns-spalat-styling" then ("frizerie-tuns", 2)
        else if id == "indepartare-tape-on" then ("coafor-extensii-indepartare", 0)
        else if id == "tratament-wellaplex" then ("coafor-tratamente", 4)
        else if id == "coafor-tuns-varfuri" then ("coafor-tuns", 0)
        else ("", 0)
    case 20 =>
        if id == "intretinere-1-pachet" then ("coafor-extensii-intretinere", 0)
        else if id == "tratament-911-quinoa" then ("coafor-tratamente", 0)
        else if id == "tratament-tahe-botox" then ("coafor-tratamente", 2)
        else if id == "tratament-joico-kpak" then ("coafor-tratamente", 3)
        else ("", 0)
    case 21 =>
        if id == "manichiura-pedichiura" then ("root", 2)
        else if id == "intretinere-2-pachete" then ("coafor-extensii-intretinere", 1)
        else if id == "indepartare-microring" then ("coafor-extensii-indepartare", 1)
        else ("", 0)
    case 22 =>
        if id == "coafor-extensii-montat" then ("coafor-extensii", 0)
        else ("", 0)
    case 23 =>
        if id == "montat-extensii-proprii" then ("coafor-extensii-montat", 2)
        else ("", 0)
    case 26 =>
        if id == "intretinere-3-plus-pachete" then ("coafor-extensii-intretinere", 2)
        else ("", 0)
    case 27 =>
        if id == "coafor-extensii-intretinere" then ("coafor-extensii", 1)
        else if id == "coafor-extensii-indepartare" then ("coafor-extensii", 2)
        else if id == "tratament-kerastase-booster" then ("coafor-tratamente", 1)
        else ("", 0)
    case _ => ("", 0)
  }

  const FrizerieFlow: FlowDefinition := FlowDefinition("root", FrizerieSteps)

  const SpecialistCatalog: map<string, SpecialistCatalogEntry> := map[
    "frizerie-tuns" := SpecialistCatalogEntry("Tuns", [
      SpecialistOption("frizerie-tuns-1", "Andrei Popescu"),
      SpecialistOption("frizerie-tuns-2", "Mihai Dinu"),
      SpecialistOption("frizerie-tuns-any", "Oricare")]),
    "frizerie-barba" := SpecialistCatalogEntry("Barbă", [
      SpecialistOption("frizerie-barba-1", "Alex Marinescu"),
      SpecialistOption("frizerie-barba-2", "Radu Călinescu"),
      SpecialistOption("frizerie-barba-any", "Oricare")]),
    "frizerie-vopsit" := SpecialistCatalogEntry("Vopsit", [
      SpecialistOption("frizerie-vopsit-1", "Ioana Dumitrescu"),
      SpecialistOption("frizerie-vopsit-2", "Ana Marinescu"),
      SpecialistOption("frizerie-vopsit-any", "Oricare")]),
    "coafor-coafat" := SpecialistCatalogEntry("Coafat", [
      SpecialistOption("coafor-coafat-1", "Irina Tudor"),
      SpecialistOption("coafor-coafat-2", "Simona Ilie"),
      SpecialistOption("coafor-coafat-any", "Oricare")]),
    "coafor-extensii" := SpecialistCatalogEntry("Extensii", [
      SpecialistOption("coafor-extensii-1", "Bianca Ionescu"),
      SpecialistOption("coafor-extensii-2", "Teodora Luca"),
      SpecialistOption("coafor-extensii-any", "Oricare")]),
    "coafor-tratamente" := SpecialistCatalogEntry("Tratamente", [
      SpecialistOption("coafor-tratamente-1", "Carla Enache"),
      SpecialistOption("coafor-tratamente-2", "Daria Anton"),
      SpecialistOption("coafor-tratamente-any", "Oricare")]),
    "coafor-tuns" := SpecialistCatalogEntry("Tuns", [
      SpecialistOption("coafor-tuns-1", "Cristina Radu"),
      SpecialistOption("coafor-tuns-2", "Laura Mitroi"),
      SpecialistOption("coafor-tuns-any", "Oricare")])
  ]

  /** Ranks of the catalog's steps: leaves 0, and each branch above the steps it leads to. */
  const FrizerieRank: map<string, nat> := map[
    "root" := 3,
    "frizerie-main" := 1, "frizerie-tuns" := 0, "frizerie-barba" := 0, "frizerie-vopsit" := 0,
    "coafor-main" := 2, "coafor-coafat" := 0, "coafor-extensii" := 1,
    "coafor-extensii-montat" := 0, "coafor-extensii-intretinere" := 0, "coafor-extensii-indepartare" := 0,
    "coafor-tratamente" := 0, "coafor-tuns" := 0
  ]

  // ---------------------------------------------------------------------------
  // The invariants hold of the salon's catalog. Each is checked step by step: a step is
  // sound when every one of its options keeps the per-option form of the invariants, and
  // a flow whose steps are all sound satisfies every invariant above.

  /** The step keys of the salon's catalog. */
  const FrizerieKeys: set<string> := {
    "root", "frizerie-main", "frizerie-tuns", "frizerie-barba", "frizerie-vopsit",
    "coafor-main", "coafor-coafat", "coafor-extensii", "coafor-extensii-montat",
    "coafor-extensii-intretinere", "coafor-extensii-indepartare", "coafor-tratamente", "coafor-tuns"
  }

  /** The categories the specialist catalog lists. */
  const CategoryKeys: set<string> := {
    "frizerie-tuns", "frizerie-barba", "frizerie-vopsit",
    "coafor-coafat", "coafor-extensii", "coafor-tratamente", "coafor-tuns"
  }

  /**
   * Option `o`, at position `i` of the step stored under `k`, keeps the invariants, with
   * `keys` the flow's step keys and `categories` the known specialist categories.
   */
  ghost predicate OptionSound(o: FlowOption, k: string, i: int, keys: set<string>, rank: map<string, nat>, categories: set<string>) {
    k in rank &&
    (o.hasChildren ==> Truthy(o.nextStepId) && o.nextStepId.value in keys) &&
    (o.hasChildren && Truthy(o.nextStepId) ==> o.nextStepId.value in rank && rank[o.nextStepId.value] < rank[k]) &&
    (Truthy(o.nextStepId) ==> o.hasChildren) &&
    (!o.hasChildren && IsEnabled(o) ==> o.price.Some? && o.durationMinutes.Some?) &&
    (!IsEnabled(o) ==> !o.hasChildren && o.nextStepId.None?) &&
    (o.specialistCategoryId.Some? ==> o.specialistCategoryId.value in categories) &&
    CatalogOwner(o.id) == (k, i)
  }

  ghost predicate StepSound(step: FlowStep, k: string, keys: set<string>, rank: map<string, nat>, categories: set<string>) {
    step.id == k && k in rank &&
    forall i :: 0 <= i < |step.options| ==> OptionSound(step.options[i], k, i, keys, rank, categories)
  }

  /** A flow whose steps are all sound keeps every structural invariant. */
  lemma SoundSteps(def: FlowDefinition, keys: set<string>, rank: map<string, nat>, catalog: map<string, SpecialistCatalogEntry>, categories: set<string>)
    requires keys <= def.steps.Keys && categories <= catalog.Keys
    requires forall k :: k in def.steps ==> StepSound(def.steps[k], k, keys, rank, categories)
    ensures KeysMatchIds(def) && BranchesResolve(def) && EnabledLeavesPriced(def) && DisabledInert(def)
    ensures NextStepsOnBranches(def) && RankedBy(def, rank) && CategoriesKnown(def, catalog)
    ensures OptionIdsDistinct(def)
  {
    forall k1, i1, k2, i2 |
      HasOption(def, k1, i1) && HasOption(def, k2, i2) && OptionAt(def, k1, i1).id == OptionAt(def, k2, i2).id
      ensures k1 == k2 && i1 == i2
    {
      assert OptionSound(OptionAt(def, k1, i1), k1, i1, keys, rank, categories);
      assert OptionSound(OptionAt(def, k2, i2), k2, i2, keys, rank, categories);
    }
  }

  lemma RankFacts()
    ensures "root" in FrizerieRank && FrizerieRank["root"] == 3 && "frizerie-main" in FrizerieRank && FrizerieRank["frizerie-main"] == 1 && "frizerie-tuns" in FrizerieRank && FrizerieRank["frizerie-tuns"] == 0 && "frizerie-barba" in FrizerieRank && FrizerieRank["frizerie-barba"] == 0 && "frizerie-vopsit" in FrizerieRank && FrizerieRank["frizerie-vopsit"] == 0 && "coafor-main" in FrizerieRank && FrizerieRank["coafor-main"] == 2 && "coafor-coafat" in FrizerieRank && FrizerieRank["coafor-coafat"] == 0 && "coafor-extensii" in FrizerieRank && FrizerieRank["coafor-extensii"] == 1 && "coafor-extensii-montat" in FrizerieRank && FrizerieRank["coafor-extensii-montat"] == 0 && "coafor-extensii-intretinere" in FrizerieRank && FrizerieRank["coafor-extensii-intretinere"] == 0 && "coafor-extensii-indepartare" in FrizerieRank && FrizerieRank["coafor-extensii-indepartare"] == 0 && "coafor-tratamente" in FrizerieRank && FrizerieRank["coafor-tratamente"] == 0 && "coafor-tuns" in FrizerieRank && FrizerieRank["coafor-tuns"] == 0
  {
  }

  lemma KeyFacts()
    ensures "root" in FrizerieKeys && "frizerie-main" in FrizerieKeys && "frizerie-tuns" in FrizerieKeys && "frizerie-barba" in FrizerieKeys && "frizerie-vopsit" in FrizerieKeys && "coafor-main" in FrizerieKeys && "coafor-coafat" in FrizerieKeys && "coafor-extensii" in FrizerieKeys && "coafor-extensii-montat" in FrizerieKeys && "coafor-extensii-intretinere" in FrizerieKeys && "coafor-extensii-indepartare" in FrizerieKeys && "coafor-tratamente" in FrizerieKeys && "coafor-tuns" in FrizerieKeys
  {
  }

  lemma RootSound()
    ensures StepSound(RootStep, "root", FrizerieKeys, FrizerieRank, CategoryKeys)
  {
    RankFacts();
    KeyFacts();
    RootOwnsIds();
  }

  lemma FrizerieMainSound()
    ensures StepSound(FrizerieMainStep, "frizerie-main", FrizerieKeys, FrizerieRank, CategoryKeys)
  {
    RankFacts();
    KeyFacts();
    FrizerieMainOwnsIds();
  }

  lemma FrizerieTunsSound()
    ensures StepSound(FrizerieTunsStep, "frizerie-tuns", FrizerieKeys, FrizerieRank, CategoryKeys)
  {
    RankFacts();
    KeyFacts();
    FrizerieTunsOwnsIds();
  }

  lemma FrizerieBarbaSound()
    ensures StepSound(FrizerieBarbaStep, "frizerie-barba", FrizerieKeys, FrizerieRank, CategoryKeys)
  {
    RankFacts();
    KeyFacts();
    FrizerieBarbaOwnsIds();
  }

  lemma FrizerieVopsitSound()
    ensures StepSound(FrizerieVopsitStep, "frizerie-vopsit", FrizerieKeys, FrizerieRank, CategoryKeys)
  {
    RankFacts();
    KeyFacts();
    FrizerieVopsitOwnsIds();
  }

  lemma CoaforMainSound()
    ensures StepSound(CoaforMainStep, "coafor-main", FrizerieKeys, FrizerieRank, CategoryKeys)
  {
    RankFacts();
    KeyFacts();
    CoaforMainOwnsIds();
  }

  lemma CoaforCoafatSound()
    ensures StepSound(CoaforCoafatStep, "coafor-coafat", FrizerieKeys, FrizerieRank, CategoryKeys)
  {
    RankFacts();
    KeyFacts();
    CoaforCoafatOwnsIds();
  }

  lemma CoaforExtensiiSound()
    ensures StepSound(CoaforExtensiiStep, "coafor-extensii", FrizerieKeys, FrizerieRank, CategoryKeys)
  {
    RankFacts();
    KeyFacts();
    CoaforExtensiiOwnsIds();
  }

  lemma MontatSound()
    ensures StepSound(MontatStep, "coafor-extensii-montat", FrizerieKeys, FrizerieRank, CategoryKeys)
  {
    RankFacts();
    KeyFacts();
    MontatOwnsIds();
  }

  lemma IntretinereSound()
    ensures StepSound(IntretinereStep, "coafor-extensii-intretinere", FrizerieKeys, FrizerieRank, CategoryKeys)
  {
    RankFacts();
    KeyFacts();
    IntretinereOwnsIds();
  }

  lemma IndepartareSound()
    ensures StepSound(IndepartareStep, "coafor-extensii-indepartare", FrizerieKeys, FrizerieRank, CategoryKeys)
  {
    RankFacts();
    KeyFacts();
    IndepartareOwnsIds();
  }

  lemma CoaforTratamenteSound()
    ensures StepSound(CoaforTratamenteStep, "coafor-tratamente", FrizerieKeys, FrizerieRank, CategoryKeys)
  {
    RankFacts();
    KeyFacts();
    CoaforTratamenteOwnsIds();
  }

  lemma CoaforTunsSound()
    ensures StepSound(CoaforTunsStep, "coafor-tuns", FrizerieKeys, FrizerieRank, CategoryKeys)
  {
    RankFacts();
    KeyFacts();
    CoaforTunsOwnsIds();
  }

  /** Every step of the catalog is sound. */
  lemma FrizerieStepsSound()
    ensures forall k :: k in FrizerieSteps ==> StepSound(FrizerieSteps[k], k, FrizerieKeys, FrizerieRank, CategoryKeys)
  {
    forall k | k in FrizerieSteps
      ensures StepSound(FrizerieSteps[k], k, FrizerieKeys, FrizerieRank, CategoryKeys)
    {
      StepOfKey(k);
      RootSound();
      FrizerieMainSound();
      FrizerieTunsSound();
      FrizerieBarbaSound();
      FrizerieVopsitSound();
      CoaforMainSound();
      CoaforCoafatSound();
      CoaforExtensiiSound();
      MontatSound();
      IntretinereSound();
      IndepartareSound();
      CoaforTratamenteSound();
      CoaforTunsSound();
    }
  }

  lemma StepOfKey(k: string)
    requires k in FrizerieSteps
    ensures (k == "root" && FrizerieSteps[k] == RootStep)
      || (k == "frizerie-main" && FrizerieSteps[k] == FrizerieMainStep)
      || (k == "frizerie-tuns" && FrizerieSteps[k] == FrizerieTunsStep)
      || (k == "frizerie-barba" && FrizerieSteps[k] == FrizerieBarbaStep)
      || (k == "frizerie-vopsit" && FrizerieSteps[k] == FrizerieVopsitStep)
      || (k == "coafor-main" && FrizerieSteps[k] == CoaforMainStep)
      || (k == "coafor-coafat" && FrizerieSteps[k] == CoaforCoafatStep)
      || (k == "coafor-extensii" && FrizerieSteps[k] == CoaforExtensiiStep)
      || (k == "coafor-extensii-montat" && FrizerieSteps[k] == MontatStep)
      || (k == "coafor-extensii-intretinere" && FrizerieSteps[k] == IntretinereStep)
      || (k == "coafor-extensii-indepartare" && FrizerieSteps[k] == IndepartareStep)
      || (k == "coafor-tratamente" && FrizerieSteps[k] == CoaforTratamenteStep)
      || (k == "coafor-tuns" && FrizerieSteps[k] == CoaforTunsStep)
  {
  }

  lemma FrizerieKeysPresent()
    ensures FrizerieKeys <= FrizerieSteps.Keys
  {
  }

  /** The step keys are exactly `FrizerieKeys`. */
  lemma FrizerieKeysExact()
    ensures FrizerieSteps.Keys == FrizerieKeys
  {
  }

  lemma CategoryKeysPresent()
    ensures CategoryKeys <= SpecialistCatalog.Keys
  {
  }

  /** The salon's catalog keeps every structural invariant. */
  lemma FrizerieSound()
    ensures KeysMatchIds(FrizerieFlow) && RootIsStep(FrizerieFlow)
    ensures BranchesResolve(FrizerieFlow) && EnabledLeavesPriced(FrizerieFlow) && DisabledInert(FrizerieFlow)
    ensures NextStepsOnBranches(FrizerieFlow) && RankedBy(FrizerieFlow, FrizerieRank)
    ensures CategoriesKnown(FrizerieFlow, SpecialistCatalog) && OptionIdsDistinct(FrizerieFlow)
  {
    FrizerieKeysPresent();
    CategoryKeysPresent();
    FrizerieStepsSound();
    SoundSteps(FrizerieFlow, FrizerieKeys, FrizerieRank, SpecialistCatalog, CategoryKeys);
  }

  /** Every option of `step`, listed under key `k`, is where `CatalogOwner` says it is. */
  ghost predicate OwnsIds(step: FlowStep, k: string) {
    forall i :: 0 <= i < |step.options| ==> CatalogOwner(step.options[i].id) == (k, i)
  }

  lemma RootOwnsIds()
    ensures OwnsIds(RootStep, "root")
  {
    var opts := RootStep.options;
    assert |opts| == 7 && opts[0].id == "frizerie" && opts[1].id == "coafor" && opts[2].id == "manichiura-pedichiura" && opts[3].id == "gene" && opts[4].id == "machiaj" && opts[5].id == "cosmetica" && opts[6].id == "permanent-makeup";
    assert CatalogOwner("frizerie") == ("root", 0);
    assert CatalogOwner("coafor") == ("root", 1);
    assert CatalogOwner("manichiura-pedichiura") == ("root", 2);
    assert CatalogOwner("gene") == ("root", 3);
    assert CatalogOwner("machiaj") == ("root", 4);
    assert CatalogOwner("cosmetica") == ("root", 5);
    assert CatalogOwner("permanent-makeup") == ("root", 6);
  }

  lemma FrizerieMainOwnsIds()
    ensures OwnsIds(FrizerieMainStep, "frizerie-main")
  {
    var opts := FrizerieMainStep.options;
    assert |opts| == 3 && opts[0].id == "frizerie-tuns" && opts[1].id == "frizerie-barba" && opts[2].id == "frizerie-vopsit";
    assert CatalogOwner("frizerie-tuns") == ("frizerie-main", 0);
    assert CatalogOwner("frizerie-barba") == ("frizerie-main", 1);
    assert CatalogOwner("frizerie-vopsit") == ("frizerie-main", 2);
  }

  lemma FrizerieTunsOwnsIds()
    ensures OwnsIds(FrizerieTunsStep, "frizerie-tuns")
  {
    var opts := FrizerieTunsStep.options;
    assert |opts| == 3 && opts[0].id == "tuns-simplu" && opts[1].id == "tuns-styling" && opts[2].id == "tuns-spalat-styling";
    assert CatalogOwner("tuns-simplu") == ("frizerie-tuns", 0);
    assert CatalogOwner("tuns-styling") == ("frizerie-tuns", 1);
    assert CatalogOwner("tuns-spalat-styling") == ("frizerie-tuns", 2);
  }

  lemma FrizerieBarbaOwnsIds()
    ensures OwnsIds(FrizerieBarbaStep, "frizerie-barba")
  {
    var opts := FrizerieBarbaStep.options;
    assert |opts| == 2 && opts[0].id == "barba-simpla" && opts[1].id == "barba-contur";
    assert CatalogOwner("barba-simpla") == ("frizerie-barba", 0);
    assert CatalogOwner("barba-contur") == ("frizerie-barba", 1);
  }

  lemma FrizerieVopsitOwnsIds()
    ensures OwnsIds(FrizerieVopsitStep, "frizerie-vopsit")
  {
    var opts := FrizerieVopsitStep.options;
    assert |opts| == 3 && opts[0].id == "vopsit-par" && opts[1].id == "vopsit-barba" && opts[2].id == "vopsit-par-barba";
    assert CatalogOwner("vopsit-par") == ("frizerie-vopsit", 0);
    assert CatalogOwner("vopsit-barba") == ("frizerie-vopsit", 1);
    assert CatalogOwner("vopsit-par-barba") == ("frizerie-vopsit", 2);
  }

  lemma CoaforMainOwnsIds()
    ensures OwnsIds(CoaforMainStep, "coafor-main")
  {
    var opts := CoaforMainStep.options;
    assert |opts| == 4 && opts[0].id == "coafor-coafat" && opts[1].id == "coafor-extensii" && opts[2].id == "coafor-tratamente" && opts[3].id == "coafor-tuns";
    assert CatalogOwner("coafor-coafat") == ("coafor-main", 0);
    assert CatalogOwner("coafor-extensii") == ("coafor-main", 1);
    assert CatalogOwner("coafor-tratamente") == ("coafor-main", 2);
    assert CatalogOwner("coafor-tuns") == ("coafor-main", 3);
  }

  lemma CoaforCoafatOwnsIds()
    ensures OwnsIds(CoaforCoafatStep, "coafor-coafat")
  {
    var opts := CoaforCoafatStep.options;
    assert |opts| == 5 && opts[0].id == "coafat-par-scurt" && opts[1].id == "coafat-par-mediu" && opts[2].id == "coafat-par-lung" && opts[3].id == "coafat-ocazie" && opts[4].id == "coafat-mireasa";
    assert CatalogOwner("coafat-par-scurt") == ("coafor-coafat", 0);
    assert CatalogOwner("coafat-par-mediu") == ("coafor-coafat", 1);
    assert CatalogOwner("coafat-par-lung") == ("coafor-coafat", 2);
    assert CatalogOwner("coafat-ocazie") == ("coafor-coafat", 3);
    assert CatalogOwner("coafat-mireasa") == ("coafor-coafat", 4);
  }

  lemma CoaforExtensiiOwnsIds()
    ensures OwnsIds(CoaforExtensiiStep, "coafor-extensii")
  {
    var opts := CoaforExtensiiStep.options;
    assert |opts| == 3 && opts[0].id == "coafor-extensii-montat" && opts[1].id == "coafor-extensii-intretinere" && opts[2].id == "coafor-extensii-indepartare";
    assert CatalogOwner("coafor-extensii-montat") == ("coafor-extensii", 0);
    assert CatalogOwner("coafor-extensii-intretinere") == ("coafor-extensii", 1);
    assert CatalogOwner("coafor-extensii-indepartare") == ("coafor-extensii", 2);
  }

  lemma MontatOwnsIds()
    ensures OwnsIds(MontatStep, "coafor-extensii-montat")
  {
    var opts := MontatStep.options;
    assert |opts| == 3 && opts[0].id == "montat-tape-on" && opts[1].id == "montat-microring" && opts[2].id == "montat-extensii-proprii";
    assert CatalogOwner("montat-tape-on") == ("coafor-extensii-montat", 0);
    assert CatalogOwner("montat-microring") == ("coafor-extensii-montat", 1);
    assert CatalogOwner("montat-extensii-proprii") == ("coafor-extensii-montat", 2);
  }

  lemma IntretinereOwnsIds()
    ensures OwnsIds(IntretinereStep, "coafor-extensii-intretinere")
  {
    var opts := IntretinereStep.options;
    assert |opts| == 3 && opts[0].id == "intretinere-1-pachet" && opts[1].id == "intretinere-2-pachete" && opts[2].id == "intretinere-3-plus-pachete";
    assert CatalogOwner("intretinere-1-pachet") == ("coafor-extensii-intretinere", 0);
    assert CatalogOwner("intretinere-2-pachete") == ("coafor-extensii-intretinere", 1);
    assert CatalogOwner("intretinere-3-plus-pachete") == ("coafor-extensii-intretinere", 2);
  }

  lemma IndepartareOwnsIds()
    ensures OwnsIds(IndepartareStep, "coafor-extensii-indepartare")
  {
    var opts := IndepartareStep.options;
    assert |opts| == 2 && opts[0].id == "indepartare-tape-on" && opts[1].id == "indepartare-microring";
    assert CatalogOwner("indepartare-tape-on") == ("coafor-extensii-indepartare", 0);
    assert CatalogOwner("indepartare-microring") == ("coafor-extensii-indepartare", 1);
  }

  lemma CoaforTratamenteOwnsIds()
    ensures OwnsIds(CoaforTratamenteStep, "coafor-tratamente")
  {
    var opts := CoaforTratamenteStep.options;
    assert |opts| == 5 && opts[0].id == "tratament-911-quinoa" && opts[1].id == "tratament-kerastase-booster" && opts[2].id == "tratament-tahe-botox" && opts[3].id == "tratament-joico-kpak" && opts[4].id == "tratament-wellaplex";
    assert CatalogOwner("tratament-911-quinoa") == ("coafor-tratamente", 0);
    assert CatalogOwner("tratament-kerastase-booster") == ("coafor-tratamente", 1);
    assert CatalogOwner("tratament-tahe-botox") == ("coafor-tratamente", 2);
    assert CatalogOwner("tratament-joico-kpak") == ("coafor-tratamente", 3);
    assert CatalogOwner("tratament-wellaplex") == ("coafor-tratamente", 4);
  }

  lemma CoaforTunsOwnsIds()
    ensures OwnsIds(CoaforTunsStep, "coafor-tuns")
  {
    var opts := CoaforTunsStep.options;
    assert |opts| == 2 && opts[0].id == "coafor-tuns-varfuri" && opts[1].id == "coafor-tuns-forma";
    assert CatalogOwner("coafor-tuns-varfuri") == ("coafor-tuns", 0);
    assert CatalogOwner("coafor-tuns-forma") == ("coafor-tuns", 1);
  }
}
