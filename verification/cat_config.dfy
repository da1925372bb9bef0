/** The fixed configuration of the adaptive subtests (`makeCatConfig`) and
    the display names of domains and item families. */
module CatConfig {

  /** The six domains in the order the assessment runs them. */
  const Domains: seq<string> := ["Gf", "Gv", "Gq", "Gwm", "Gs", "Gc"]

  /** A family share of a domain's items, in declaration order. */
  datatype Share = Share(family: string, proportion: real)

  datatype Config = Config(
    semThreshold: map<string, real>,
    minItems: map<string, nat>,
    maxItems: map<string, nat>,
    maxExposurePerItem: nat,
    topK: nat,
    anchorMiniBlockN: map<string, nat>,
    anchorTargetProp: map<string, real>,
    anchorMin: map<string, nat>,
    anchorMax: map<string, nat>,
    anchorAvoidFirstTwo: map<string, bool>,
    familyTargets: map<string, seq<Share>>)

  function TotalShare(shares: seq<Share>): real
  {
    if shares == [] then 0.0 else TotalShare(shares[..|shares| - 1]) + shares[|shares| - 1].proportion
  }

  /** Every domain is configured, its item bounds and anchor bounds are
      ordered, its anchors fit within its items, its stopping threshold
      and anchor share are positive, and its family shares sum to one. */
  ghost predicate Consistent(c: Config)
  {
    forall d :: d in Domains ==> DomainConsistent(c, d)
  }

  predicate DomainConsistent(c: Config, d: string)
  {
      && d in c.semThreshold && d in c.minItems && d in c.maxItems && d in c.anchorMiniBlockN
      && d in c.anchorTargetProp && d in c.anchorMin && d in c.anchorMax && d in c.anchorAvoidFirstTwo
      && d in c.familyTargets
      && 0 < c.minItems[d] <= c.maxItems[d]
      && c.anchorMin[d] <= c.anchorMax[d] <= c.maxItems[d]
      && 0.0 < c.semThreshold[d] && 0.0 < c.anchorTargetProp[d] < 1.0
      && TotalShare(c.familyTargets[d]) == 1.0
  }

  /** `makeCatConfig()` */
  function MakeCatConfig(): Config
  {
    Config(
      map["Gf" := 0.30, "Gv" := 0.30, "Gq" := 0.30, "Gc" := 0.38, "Gwm" := 0.42, "Gs" := 0.42],
      map["Gf" := 10, "Gv" := 10, "Gq" := 10, "Gc" := 10, "Gwm" := 8, "Gs" := 8],
      map["Gf" := 18, "Gv" := 18, "Gq" := 18, "Gc" := 18, "Gwm" := 12, "Gs" := 12],
      50,
      5,
      map["Gf" := 3, "Gv" := 3, "Gq" := 3, "Gc" := 3, "Gwm" := 2, "Gs" := 2],
      map["Gf" := 0.22, "Gv" := 0.22, "Gq" := 0.22, "Gc" := 0.22, "Gwm" := 0.18, "Gs" := 0.18],
      map["Gf" := 2, "Gv" := 2, "Gq" := 2, "Gc" := 2, "Gwm" := 1, "Gs" := 1],
      map["Gf" := 6, "Gv" := 6, "Gq" := 6, "Gc" := 6, "Gwm" := 4, "Gs" := 4],
      map["Gf" := true, "Gv" := true, "Gq" := true, "Gc" := true, "Gwm" := false, "Gs" := false],
      map[
        "Gf" := [Share("matrix_reasoning", 0.55), Share("series_completion", 0.45)],
        "Gv" := [Share("mental_rotation", 0.60), Share("mirror_discrimination", 0.40)],
        "Gq" := [Share("number_pattern", 0.60), Share("ratio_reasoning", 0.40)],
        "Gc" := [Share("logical_inference", 0.55), Share("controlled_analogy", 0.45)],
        "Gwm" := [Share("n_back_block", 1.0)],
        "Gs" := [Share("symbol_search_block", 0.60), Share("coding_block", 0.40)]])
  }

  /** The configuration is consistent for every domain the assessment runs. */
  lemma ConfigConsistent()
    ensures Consistent(MakeCatConfig())
  {
    forall d | d in Domains ensures DomainConsistent(MakeCatConfig(), d) {
      assert d == Domains[0] || d == Domains[1] || d == Domains[2] || d == Domains[3] || d == Domains[4] || d == Domains[5];
      if d == "Gf" { SettledGf(); }
      else if d == "Gv" { SettledGv(); }
      else if d == "Gq" { SettledGq(); }
      else if d == "Gwm" { SettledGwm(); }
      else if d == "Gs" { SettledGs(); }
      else { SettledGc(); }
    }
  }

  /** `Gf` is consistent and its target families are named. */
  lemma SettledGf()
    ensures DomainConsistent(MakeCatConfig(), "Gf")
    ensures FamiliesNamed(MakeCatConfig(), "Gf")
  {
  }

  /** `Gv` is consistent and its target families are named. */
  lemma SettledGv()
    ensures DomainConsistent(MakeCatConfig(), "Gv")
    ensures FamiliesNamed(MakeCatConfig(), "Gv")
  {
  }

  /** `Gq` is consistent and its target families are named. */
  lemma SettledGq()
    ensures DomainConsistent(MakeCatConfig(), "Gq")
    ensures FamiliesNamed(MakeCatConfig(), "Gq")
  {
  }

  /** `Gwm` is consistent and its target families are named. */
  lemma SettledGwm()
    ensures DomainConsistent(MakeCatConfig(), "Gwm")
    ensures FamiliesNamed(MakeCatConfig(), "Gwm")
  {
  }

  /** `Gs` is consistent and its target families are named. */
  lemma SettledGs()
    ensures DomainConsistent(MakeCatConfig(), "Gs")
    ensures FamiliesNamed(MakeCatConfig(), "Gs")
  {
  }

  /** `Gc` is consistent and its target families are named. */
  lemma SettledGc()
    ensures DomainConsistent(MakeCatConfig(), "Gc")
    ensures FamiliesNamed(MakeCatConfig(), "Gc")
  {
  }

  // ---------------------------------------------------------------------
  // Display names

  const DomainNames: map<string, string> := map[
    "Gf" := "Fluid Reasoning",
    "Gc" := "Crystallized (Controlled Verbal) Reasoning",
    "Gv" := "Visual-Spatial Processing",
    "Gq" := "Quantitative Reasoning",
    "Gwm" := "Working Memory",
    "Gs" := "Processing Speed"]

  const FamilyNames: map<string, map<string, string>> := map[
    "Gf" := map[
      "rule_induction" := "Rule Induction (Analogy Panels)",
      "matrix_reasoning" := "Matrix Reasoning",
      "series_completion" := "Series Completion"],
    "Gv" := map[
      "mental_rotation" := "Mental Rotation",
      "mirror_discrimination" := "Mirror Discrimination"],
    "Gq" := map[
      "number_pattern" := "Number Pattern Induction",
      "ratio_reasoning" := "Ratio / Proportion Reasoning"],
    "Gc" := map[
      "logical_inference" := "Logical Inference",
      "controlled_analogy" := "Controlled Analogy"],
    "Gwm" := map[
      "n_back_block" := "N-back Working Memory Block"],
    "Gs" := map[
      "symbol_search_block" := "Symbol Search Speed Block",
      "coding_block" := "Coding Speed Block"]]

  /** `domainLabel(d)`: the name of a known domain, else the code itself. */
  function DomainLabel(d: string): (r: string)
    ensures d in DomainNames ==> r == DomainNames[d]
    ensures d !in DomainNames ==> r == d
  {
    if d in DomainNames then DomainNames[d] else d
  }

  /** The text shown for a family that has no name. */
  function FamilyFallback(domain: string, family: string): string
  {
    domain + " ? " + family
  }

  /** `familyLabel(domain, family)`: the name of a known family of a known
      domain, else the domain and the family code. */
  function FamilyLabel(domain: string, family: string): (r: string)
    ensures domain in FamilyNames && family in FamilyNames[domain] ==> r == FamilyNames[domain][family]
    ensures !(domain in FamilyNames && family in FamilyNames[domain]) ==> r == FamilyFallback(domain, family)
  {
    if domain in FamilyNames && family in FamilyNames[domain] then FamilyNames[domain][family]
    else FamilyFallback(domain, family)
  }

  /** Every domain the assessment runs has a name, distinct from its code. */
  lemma DomainsNamed()
    ensures forall d :: d in Domains ==> d in DomainNames && DomainLabel(d) != d
  {
  }

  /** Every family that domain `d` targets has a name under `d`. */
  predicate FamiliesNamed(c: Config, d: string)
  {
    d in c.familyTargets && d in FamilyNames
    && forall k :: 0 <= k < |c.familyTargets[d]| ==> c.familyTargets[d][k].family in FamilyNames[d]
  }

  /** Every family the configuration targets has a name. */
  lemma TargetFamiliesNamed()
    ensures forall d :: d in Domains ==> FamiliesNamed(MakeCatConfig(), d)
  {
    forall d | d in Domains ensures FamiliesNamed(MakeCatConfig(), d) {
      assert d == Domains[0] || d == Domains[1] || d == Domains[2] || d == Domains[3] || d == Domains[4] || d == Domains[5];
      if d == "Gf" { SettledGf(); }
      else if d == "Gv" { SettledGv(); }
      else if d == "Gq" { SettledGq(); }
      else if d == "Gwm" { SettledGwm(); }
      else if d == "Gs" { SettledGs(); }
      else { SettledGc(); }
    }
  }

  /** A fallback label always begins with the domain code. */
  lemma FallbackNamesDomain(domain: string, family: string)
    ensures |FamilyFallback(domain, family)| >= |domain| && FamilyFallback(domain, family)[..|domain|] == domain
  {
  }
}
