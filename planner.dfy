/**
 * The planner of agente_planeador.py: one run of the pipeline scans for new
 * deals, prices the first five with the ensemble, picks the one with the
 * largest discount and alerts about it when that discount is above the
 * threshold.
 *
 * The alert is recorded in a ghost log together with one entry for each deal
 * the ensemble prices, so that the order, the number and the conditions of
 * those calls can be stated.
 */
module Planner {
  import opened Wrappers
  import opened Deals
  import Scanner
  import Ensemble

  /** DEAL_THRESHOLD. */
  const DealThreshold: real := 50.0

  /** The most deals one run prices. */
  const BatchSize: nat := 5

  /** `run`: the deal with the ensemble's estimate and the discount it implies. */
  function Run(e: Ensemble.Estimators, deal: Deal): (opp: Opportunity)
    ensures opp.deal == deal
    ensures opp.estimate == Ensemble.Price(e, deal.description)
    ensures opp.discount == opp.estimate - deal.price
    ensures opp.discount >= -deal.price
  {
    var estimate := Ensemble.Price(e, deal.description);
    Opportunity(deal, estimate, estimate - deal.price)
  }

  /** `selection.deals[:5]`. */
  function Batch(deals: seq<Deal>): (b: seq<Deal>)
    ensures |b| == if |deals| <= BatchSize then |deals| else BatchSize
    ensures b == deals[..|b|]
  {
    if |deals| <= BatchSize then deals else deals[..BatchSize]
  }

  /** `[self.run(deal) for deal in batch]`. */
  function Opportunities(e: Ensemble.Estimators, batch: seq<Deal>): (r: seq<Opportunity>)
    ensures |r| == |batch|
    ensures forall i :: 0 <= i < |batch| ==> r[i] == Run(e, batch[i])
  {
    seq(|batch|, i requires 0 <= i < |batch| => Run(e, batch[i]))
  }

  // ---------------------------------------------------------------------------
  // `opportunities.sort(key=lambda opp: opp.discount, reverse=True)`: a stable
  // sort by decreasing discount.

  /** Puts opp before the first element whose discount is not above opp's. */
  function Insert(opp: Opportunity, sorted: seq<Opportunity>): seq<Opportunity>
  {
    if sorted == [] || opp.discount >= sorted[0].discount then [opp] + sorted
    else [sorted[0]] + Insert(opp, sorted[1..])
  }

  function SortByDiscount(s: seq<Opportunity>): seq<Opportunity>
  {
    if s == [] then [] else Insert(s[0], SortByDiscount(s[1..]))
  }

  predicate Descending(s: seq<Opportunity>)
  {
    forall i, j :: 0 <= i < j < |s| ==> s[i].discount >= s[j].discount
  }

  /** The opportunities whose discount is d, in their order. */
  function WithDiscount(s: seq<Opportunity>, d: real): seq<Opportunity>
  {
    if s == [] then []
    else (if s[0].discount == d then [s[0]] else []) + WithDiscount(s[1..], d)
  }

  lemma {:induction false} InsertIsPermutation(opp: Opportunity, sorted: seq<Opportunity>)
    ensures multiset(Insert(opp, sorted)) == multiset([opp] + sorted)
    ensures |Insert(opp, sorted)| == |sorted| + 1
  {
    if sorted != [] && opp.discount < sorted[0].discount {
      InsertIsPermutation(opp, sorted[1..]);
      assert sorted == [sorted[0]] + sorted[1..];
    }
  }

  lemma {:induction false} InsertMembers(opp: Opportunity, sorted: seq<Opportunity>)
    ensures forall x :: x in Insert(opp, sorted) <==> x == opp || x in sorted
  {
    if sorted != [] && opp.discount < sorted[0].discount {
      InsertMembers(opp, sorted[1..]);
      assert sorted == [sorted[0]] + sorted[1..];
    }
  }

  lemma {:induction false} InsertHead(opp: Opportunity, sorted: seq<Opportunity>)
    ensures Insert(opp, sorted)[0] == if sorted == [] || opp.discount >= sorted[0].discount then opp else sorted[0]
  {
  }

  lemma {:induction false} InsertKeepsDescending(opp: Opportunity, sorted: seq<Opportunity>)
    requires Descending(sorted)
    ensures Descending(Insert(opp, sorted))
  {
    if sorted != [] && opp.discount < sorted[0].discount {
      InsertKeepsDescending(opp, sorted[1..]);
      InsertMembers(opp, sorted[1..]);
      var rest := Insert(opp, sorted[1..]);
      forall k | 0 <= k < |rest| ensures sorted[0].discount >= rest[k].discount {
        assert rest[k] in rest;
      }
    }
  }

  lemma WithDiscountCons(x: Opportunity, t: seq<Opportunity>, d: real)
    ensures WithDiscount([x] + t, d) == (if x.discount == d then [x] else []) + WithDiscount(t, d)
  {
    assert ([x] + t)[1..] == t;
  }

  lemma {:induction false} InsertWithDiscount(opp: Opportunity, sorted: seq<Opportunity>, d: real)
    ensures WithDiscount(Insert(opp, sorted), d)
         == (if opp.discount == d then [opp] else []) + WithDiscount(sorted, d)
  {
    if sorted == [] || opp.discount >= sorted[0].discount {
      WithDiscountCons(opp, sorted, d);
    } else {
      var rest := sorted[1..];
      InsertWithDiscount(opp, rest, d);
      WithDiscountCons(sorted[0], Insert(opp, rest), d);
      assert sorted == [sorted[0]] + rest;
      WithDiscountCons(sorted[0], rest, d);
    }
  }

  /** The sort yields its input's elements in decreasing order of discount. */
  lemma {:induction false} SortIsDescendingPermutation(s: seq<Opportunity>)
    ensures Descending(SortByDiscount(s))
    ensures multiset(SortByDiscount(s)) == multiset(s)
    ensures |SortByDiscount(s)| == |s|
  {
    if s != [] {
      SortIsDescendingPermutation(s[1..]);
      InsertKeepsDescending(s[0], SortByDiscount(s[1..]));
      InsertIsPermutation(s[0], SortByDiscount(s[1..]));
      assert s == [s[0]] + s[1..];
    }
  }

  /** The sort is stable: opportunities with equal discounts keep their relative order. */
  lemma {:induction false} SortIsStable(s: seq<Opportunity>, d: real)
    ensures WithDiscount(SortByDiscount(s), d) == WithDiscount(s, d)
  {
    if s != [] {
      SortIsStable(s[1..], d);
      InsertWithDiscount(s[0], SortByDiscount(s[1..]), d);
    }
  }

  /** The index of the first opportunity with the largest discount. */
  function FirstMaxIndex(s: seq<Opportunity>): (k: nat)
    requires s != []
    ensures k < |s|
    ensures forall i :: 0 <= i < |s| ==> s[i].discount <= s[k].discount
    ensures forall i :: 0 <= i < k ==> s[i].discount < s[k].discount
  {
    if |s| == 1 then 0
    else
      var j := 1 + FirstMaxIndex(s[1..]);
      if s[0].discount >= s[j].discount then 0 else j
  }

  /** The head of the sorted list is the first opportunity with the largest discount. */
  lemma {:induction false} SortHead(s: seq<Opportunity>)
    requires s != []
    ensures SortByDiscount(s)[0] == s[FirstMaxIndex(s)]
  {
    if |s| == 1 {
      assert SortByDiscount(s[1..]) == [];
    } else {
      SortHead(s[1..]);
      SortIsDescendingPermutation(s[1..]);
      InsertHead(s[0], SortByDiscount(s[1..]));
    }
  }

  // ---------------------------------------------------------------------------
  // `plan`.

  /** The outcome of a run: no opportunity, the opportunity alerted about, or the IndexError of `opportunities[0]`. */
  datatype Outcome = NoOpportunity | Found(opp: Opportunity) | EmptySelectionError

  /** What the ghost log records: a deal priced by the ensemble, or an alert sent about an opportunity. */
  datatype Event = Evaluated(deal: Deal) | Alert(opp: Opportunity)

  function EvaluatedEvents(batch: seq<Deal>): (r: seq<Event>)
    ensures |r| == |batch|
    ensures forall i :: 0 <= i < |batch| ==> r[i] == Evaluated(batch[i])
  {
    seq(|batch|, i requires 0 <= i < |batch| => Evaluated(batch[i]))
  }

  lemma OpportunitiesSnoc(e: Ensemble.Estimators, batch: seq<Deal>, i: nat)
    requires i < |batch|
    ensures Opportunities(e, batch[..i + 1]) == Opportunities(e, batch[..i]) + [Run(e, batch[i])]
  {
  }

  lemma EvaluatedEventsSnoc(batch: seq<Deal>, i: nat)
    requires i < |batch|
    ensures EvaluatedEvents(batch[..i + 1]) == EvaluatedEvents(batch[..i]) + [Evaluated(batch[i])]
  {
  }

  /** The deals one run prices, when the scan selected any. */
  function PlanBatch(scanner: Scanner.Agent, memory: seq<Opportunity>, scraped: seq<ScrapedDeal>): seq<Deal>
  {
    var selection := Scanner.Scan(scanner, memory, scraped);
    if selection.None? then [] else Batch(selection.value.deals)
  }

  /** The outcome of a run, as a function of what the services answer. */
  function PlanOutcome(scanner: Scanner.Agent, e: Ensemble.Estimators, memory: seq<Opportunity>, scraped: seq<ScrapedDeal>): Outcome
  {
    var selection := Scanner.Scan(scanner, memory, scraped);
    if selection.None? then NoOpportunity
    else Decide(SortByDiscount(Opportunities(e, Batch(selection.value.deals))))
  }

  /** The decision on the sorted opportunities: the first one when its discount is above the threshold. */
  function Decide(sorted: seq<Opportunity>): Outcome
  {
    if sorted == [] then EmptySelectionError
    else if sorted[0].discount > DealThreshold then Found(sorted[0])
    else NoOpportunity
  }

  /** The alert sent for an outcome, if any. */
  function AlertFor(outcome: Outcome): seq<Event>
  {
    if outcome.Found? then [Alert(outcome.opp)] else []
  }

  /** What a run records: the deals priced, in order, then the alert if one was sent. */
  function PlanEvents(scanner: Scanner.Agent, e: Ensemble.Estimators, memory: seq<Opportunity>, scraped: seq<ScrapedDeal>): seq<Event>
  {
    var outcome := PlanOutcome(scanner, e, memory, scraped);
    EvaluatedEvents(PlanBatch(scanner, memory, scraped)) + AlertFor(outcome)
  }

  /** A run on a selection prices its first deals, sorts them and decides on the sorted list. */
  lemma PlanOfSelection(scanner: Scanner.Agent, e: Ensemble.Estimators, memory: seq<Opportunity>, scraped: seq<ScrapedDeal>, deals: seq<Deal>)
    requires Scanner.Scan(scanner, memory, scraped) == Some(DealSelection(deals))
    ensures PlanBatch(scanner, memory, scraped) == Batch(deals)
    ensures PlanOutcome(scanner, e, memory, scraped) == Decide(SortByDiscount(Opportunities(e, Batch(deals))))
    ensures PlanEvents(scanner, e, memory, scraped)
      == EvaluatedEvents(Batch(deals)) + AlertFor(Decide(SortByDiscount(Opportunities(e, Batch(deals)))))
  {
  }

  /** The opportunities of the deals one run prices, in selection order. */
  function Candidates(scanner: Scanner.Agent, e: Ensemble.Estimators, memory: seq<Opportunity>, scraped: seq<ScrapedDeal>): seq<Opportunity>
  {
    Opportunities(e, PlanBatch(scanner, memory, scraped))
  }

  /** When the scan finds nothing new, the run prices nothing, alerts about nothing and returns nothing. */
  lemma PlanWithoutSelection(scanner: Scanner.Agent, e: Ensemble.Estimators, memory: seq<Opportunity>, scraped: seq<ScrapedDeal>)
    requires Scanner.Scan(scanner, memory, scraped).None?
    ensures PlanOutcome(scanner, e, memory, scraped) == NoOpportunity
    ensures PlanEvents(scanner, e, memory, scraped) == []
  {
  }

  /** The run prices the first five selected deals, or all when fewer, each once and in selection order, before any alert. */
  lemma PlanPricesFirstFive(scanner: Scanner.Agent, e: Ensemble.Estimators, memory: seq<Opportunity>, scraped: seq<ScrapedDeal>)
    requires Scanner.Scan(scanner, memory, scraped).Some?
    ensures var deals := Scanner.Scan(scanner, memory, scraped).value.deals;
      var events := PlanEvents(scanner, e, memory, scraped);
      var n := if |deals| <= BatchSize then |deals| else BatchSize;
      && n <= |events| <= n + 1
      && (forall i :: 0 <= i < n ==> events[i] == Evaluated(deals[i]))
      && (forall i :: n <= i < |events| ==> events[i].Alert?)
  {
  }

  /** An alert is sent exactly when the run returns an opportunity, it is about that opportunity, and it is the last event and the only alert. */
  lemma PlanAlertsIffFound(scanner: Scanner.Agent, e: Ensemble.Estimators, memory: seq<Opportunity>, scraped: seq<ScrapedDeal>)
    ensures var events := PlanEvents(scanner, e, memory, scraped);
      var outcome := PlanOutcome(scanner, e, memory, scraped);
      && (forall o :: Alert(o) in events <==> outcome == Found(o))
      && (forall i :: 0 <= i < |events| - 1 ==> !events[i].Alert?)
  {
  }

  /**
   * The run returns the first priced opportunity with the largest discount,
   * exactly when that discount is above the threshold; a selection with no
   * deals fails as `opportunities[0]` does.
   */
  lemma PlanChoosesFirstLargestDiscount(scanner: Scanner.Agent, e: Ensemble.Estimators, memory: seq<Opportunity>, scraped: seq<ScrapedDeal>)
    requires Scanner.Scan(scanner, memory, scraped).Some?
    ensures var candidates := Candidates(scanner, e, memory, scraped);
      var outcome := PlanOutcome(scanner, e, memory, scraped);
      && (candidates == [] <==> outcome == EmptySelectionError)
      && (candidates != [] ==>
            var best := candidates[FirstMaxIndex(candidates)];
            && (forall i :: 0 <= i < |candidates| ==> candidates[i].discount <= best.discount)
            && (forall i :: 0 <= i < FirstMaxIndex(candidates) ==> candidates[i].discount < best.discount)
            && (best.discount > DealThreshold ==> outcome == Found(best))
            && (best.discount <= DealThreshold ==> outcome == NoOpportunity))
  {
    var candidates := Candidates(scanner, e, memory, scraped);
    SortIsDescendingPermutation(candidates);
    if candidates != [] {
      SortHead(candidates);
    }
  }

  /** A selection with no deals left after the price filter is the one case where the run fails. */
  lemma PlanFailsOnEmptySelection(scanner: Scanner.Agent, e: Ensemble.Estimators, memory: seq<Opportunity>, scraped: seq<ScrapedDeal>)
    ensures PlanOutcome(scanner, e, memory, scraped) == EmptySelectionError
        <==> Scanner.Scan(scanner, memory, scraped) == Some(DealSelection([]))
  {
    var selection := Scanner.Scan(scanner, memory, scraped);
    if selection.Some? {
      var candidates := Opportunities(e, Batch(selection.value.deals));
      SortIsDescendingPermutation(candidates);
    }
  }

  /** Every opportunity returned has a discount strictly above the threshold: a discount of exactly 50 is not reported. */
  lemma PlanThresholdIsStrict(scanner: Scanner.Agent, e: Ensemble.Estimators, memory: seq<Opportunity>, scraped: seq<ScrapedDeal>)
    ensures PlanOutcome(scanner, e, memory, scraped).Found? ==> PlanOutcome(scanner, e, memory, scraped).opp.discount > 50.0
    ensures forall o :: o in Candidates(scanner, e, memory, scraped) && o.discount == 50.0 ==> PlanOutcome(scanner, e, memory, scraped) != Found(o)
  {
  }

  /** The planning agent, holding the scanner and the ensemble it coordinates. */
  class Planner {
    const scanner: Scanner.Agent
    const ensemble: Ensemble.Estimators
    ghost var log: seq<Event>

    constructor (scanner: Scanner.Agent, ensemble: Ensemble.Estimators)
      ensures this.scanner == scanner && this.ensemble == ensemble
      ensures log == []
    {
      this.scanner := scanner;
      this.ensemble := ensemble;
      log := [];
    }

    /** `[self.run(deal) for deal in selection.deals[:5]]`, one ensemble call per deal, in order. */
    method PriceBatch(batch: seq<Deal>) returns (opportunities: seq<Opportunity>)
      modifies this
      ensures opportunities == Opportunities(ensemble, batch)
      ensures log == old(log) + EvaluatedEvents(batch)
    {
      opportunities := [];
      for i := 0 to |batch|
        invariant opportunities == Opportunities(ensemble, batch[..i])
        invariant log == old(log) + EvaluatedEvents(batch[..i])
      {
        OpportunitiesSnoc(ensemble, batch, i);
        EvaluatedEventsSnoc(batch, i);
        log := log + [Evaluated(batch[i])];
        opportunities := opportunities + [Run(ensemble, batch[i])];
      }
      assert batch[..|batch|] == batch;
    }

    /** `plan`, given the memory and the listings the RSS feeds return. */
    method Plan(memory: seq<Opportunity>, scraped: seq<ScrapedDeal>) returns (outcome: Outcome)
      modifies this
      ensures outcome == PlanOutcome(scanner, ensemble, memory, scraped)
      ensures log == old(log) + PlanEvents(scanner, ensemble, memory, scraped)
    {
      var selection := Scanner.Scan(scanner, memory, scraped);
      if selection.None? {
        return NoOpportunity;
      }
      PlanOfSelection(scanner, ensemble, memory, scraped, selection.value.deals);
      var batch := Batch(selection.value.deals);
      var opportunities := PriceBatch(batch);
      opportunities := SortByDiscount(opportunities);
      if opportunities == [] {
        return EmptySelectionError;
      }
      var best := opportunities[0];
      if best.discount > DealThreshold {
        log := log + [Alert(best)];
        outcome := Found(best);
      } else {
        outcome := NoOpportunity;
      }
    }
  }
}
