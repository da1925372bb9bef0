/** The domain progression of `AssessmentController`: the six subtests run
    one after another in a fixed order, `domainIndex` counting the finished
    ones, and the assessment ends when the last one finishes. Item
    selection, scoring and rendering inside a subtest are not modelled. */
module Controller {
  import opened Wrappers
  import CatConfig

  class AssessmentController {
    var domains: seq<string>
    var domainIndex: nat
    /** The domain of `currentSubtest`, `None` before the first start. */
    var current: Option<string>
    /** Between `_flashDomainComplete` and its continuation. */
    var flashing: bool
    /** `_finishAll` has run since the last `start`. */
    var finishedAll: bool
    /** The domains started since the last `start`, in order. */
    ghost var started: seq<string>

    /** A subtest is on screen and takes responses. */
    predicate Testing()
      reads this
    {
      current.Some? && !flashing && !finishedAll
    }

    ghost predicate Valid()
      reads this
    {
      && domains == CatConfig.Domains
      && |started| <= |domains|
      && started == domains[..|started|]
      && (finishedAll ==> domainIndex == |domains| && |started| == |domains| && !flashing)
      && (!finishedAll ==> domainIndex < |domains|)
      && (flashing ==> 0 < domainIndex && |started| == domainIndex)
      && (Testing() ==> |started| == domainIndex + 1 && current == Some(domains[domainIndex]))
      && (current.None? ==> started == [] && domainIndex == 0 && !flashing && !finishedAll)
    }

    constructor()
      ensures Valid()
      ensures domains == CatConfig.Domains && domainIndex == 0 && current.None? && !flashing && !finishedAll
    {
      domains := CatConfig.Domains;
      domainIndex := 0;
      current := None;
      flashing := false;
      finishedAll := false;
      started := [];
    }

    /** `start()`: the first domain begins. */
    method Start()
      requires Valid()
      modifies this
      ensures Valid() && Testing()
      ensures domainIndex == 0 && current == Some(CatConfig.Domains[0]) && started == [CatConfig.Domains[0]]
      ensures domains == old(domains)
    {
      domainIndex := 0;
      flashing := false;
      finishedAll := false;
      current := Some(domains[domainIndex]);
      started := [domains[domainIndex]];
    }

    /** `_finishDomain()`: the index moves on by one; after the last domain
        the assessment finishes, otherwise the completion screen shows the
        domain just finished. */
    method FinishDomain() returns (flashed: Option<string>)
      requires Valid() && Testing()
      modifies this
      ensures Valid()
      ensures domainIndex == old(domainIndex) + 1
      ensures finishedAll <==> old(domainIndex) + 1 == |CatConfig.Domains|
      ensures finishedAll ==> started == CatConfig.Domains && flashed.None?
      ensures !finishedAll ==> flashing && flashed == Some(CatConfig.Domains[old(domainIndex)])
      ensures current == old(current) && started == old(started) && domains == old(domains)
    {
      domainIndex := domainIndex + 1;
      if domainIndex >= |domains| {
        finishedAll := true;
        flashed := None;
        return;
      }
      flashing := true;
      flashed := Some(domains[domainIndex - 1]);
    }

    /** The continuation of the completion screen: `_startDomain` on the
        domain at the new index. */
    method Continue()
      requires Valid() && flashing
      modifies this
      ensures Valid() && Testing()
      ensures current == Some(CatConfig.Domains[domainIndex]) && started == old(started) + [CatConfig.Domains[domainIndex]]
      ensures domainIndex == old(domainIndex) && domains == old(domains)
    {
      flashing := false;
      current := Some(domains[domainIndex]);
      started := started + [domains[domainIndex]];
    }
  }

  /** The six domains are distinct, so each runs exactly once per start. */
  lemma DomainsDistinct()
    ensures |CatConfig.Domains| == 6
    ensures forall i, j :: 0 <= i < j < |CatConfig.Domains| ==> CatConfig.Domains[i] != CatConfig.Domains[j]
  {
  }

  /** Driving the controller from `start`, finishing each domain and
      continuing after each completion screen, finishes the assessment at
      the sixth finish and not before, with the domains started in the
      listed order. */
  method RunAll(c: AssessmentController)
    requires c.Valid()
    modifies c
    ensures c.Valid() && c.finishedAll && c.domainIndex == |CatConfig.Domains|
    ensures c.started == CatConfig.Domains
  {
    c.Start();
    var f := c.FinishDomain();
    assert !c.finishedAll;
    c.Continue();
    f := c.FinishDomain();
    assert !c.finishedAll;
    c.Continue();
    f := c.FinishDomain();
    assert !c.finishedAll;
    c.Continue();
    f := c.FinishDomain();
    assert !c.finishedAll;
    c.Continue();
    f := c.FinishDomain();
    assert !c.finishedAll;
    c.Continue();
    f := c.FinishDomain();
  }
}
