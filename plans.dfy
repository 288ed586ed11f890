/**
 * The static pricing catalog and its lookup by id.
 *
 * `generationCredits` is the single-pool grant that the ledger credits on a
 * purchase. The catalog entries themselves only define the two per-provider
 * grants; the model takes the Pollinations grant as the single-pool grant.
 */
module Plans {
  import opened Wrappers

  datatype Plan = Plan(
    id: string,
    name: string,
    price: int,
    priceUnit: Option<string>,
    popular: bool,
    purchaseLink: string,
    googleImagenCredits: int,
    pollinationsCredits: int,
    generationCredits: nat)

  const FreePlan: Plan := Plan("free", "Free", 0, None, false, "", 0, 20, 20)
  const ProPlan: Plan := Plan("pro", "Pro", 50, Some("/ month"), true,
    "https://buy.polar.sh/polar_cl_iQpYIoo3qkW310DMOKN5lXhQo70OHOiLLU5Fp0eZ49f", 1500, 1500, 1500)
  const MegaPlan: Plan := Plan("mega", "Mega", 100, Some("/ month"), false,
    "https://buy.polar.sh/polar_cl_xkFeAW6Ib01eE9ya6C6jRJVdkpSmHIb9xMnXL0trOi7", 5000, 5000, 5000)
  const BoosterPlan: Plan := Plan("booster", "Booster Pack", 20, Some("one-time"), false,
    "https://buy.polar.sh/polar_cl_u5vpk1YGAidaW5Lf7PXbDiWqo7jDVyWlv1v0o3G0NAh", 500, 500, 500)

  /** `pricingPlans`, in display order. */
  const PricingPlans: seq<Plan> := [FreePlan, ProPlan, MegaPlan, BoosterPlan]

  /** `plans.find(p => p.id === id)`: the first entry with that id, if any. */
  function FindById(plans: seq<Plan>, id: string): (r: Option<Plan>)
    ensures r.Some? ==> r.value in plans && r.value.id == id
    ensures r.None? ==> forall k :: 0 <= k < |plans| ==> plans[k].id != id
  {
    if plans == [] then None
    else if plans[0].id == id then Some(plans[0])
    else FindById(plans[1..], id)
  }

  /** `getPlanById`: a missing or empty id finds nothing; otherwise the catalog entry with that id. */
  function GetPlanById(id: Option<string>): (r: Option<Plan>)
    ensures id.None? || id == Some("") ==> r.None?
    ensures r.Some? ==> r.value in PricingPlans && id == Some(r.value.id)
    ensures id.Some? && id.value != "" && r.None? ==> forall p :: p in PricingPlans ==> p.id != id.value
  {
    if id.None? || id.value == "" then None
    else FindById(PricingPlans, id.value)
  }

  /** The catalog ids are pairwise distinct. */
  predicate DistinctIds(plans: seq<Plan>) {
    forall i, j :: 0 <= i < j < |plans| ==> plans[i].id != plans[j].id
  }

  /** With distinct ids, looking up an entry's own id finds that entry. */
  lemma {:induction false} FindOwnId(plans: seq<Plan>, k: nat)
    requires DistinctIds(plans) && k < |plans|
    ensures FindById(plans, plans[k].id) == Some(plans[k])
  {
    if k > 0 {
      assert plans[0].id != plans[k].id;
      assert DistinctIds(plans[1..]) by {
        forall i, j | 0 <= i < j < |plans| - 1 ensures plans[1..][i].id != plans[1..][j].id {
          assert plans[1..][i] == plans[i + 1] && plans[1..][j] == plans[j + 1];
        }
      }
      FindOwnId(plans[1..], k - 1);
      assert plans[1..][k - 1] == plans[k];
    }
  }

  /** Every catalog entry is found by its own id: `getPlanById(p.id) == p`. */
  lemma CatalogLookupRoundTrip()
    ensures DistinctIds(PricingPlans)
    ensures forall p :: p in PricingPlans ==> GetPlanById(Some(p.id)) == Some(p)
  {
    forall p | p in PricingPlans ensures GetPlanById(Some(p.id)) == Some(p) {
      var k :| 0 <= k < |PricingPlans| && PricingPlans[k] == p;
      FindOwnId(PricingPlans, k);
    }
  }

  /** Prices and grants are non-negative; the Free entry grants 0 Imagen and 20 Pollinations credits. */
  lemma CatalogAmounts()
    ensures forall p :: p in PricingPlans ==> p.price >= 0 && p.googleImagenCredits >= 0 && p.pollinationsCredits >= 0
    ensures GetPlanById(Some("free")) == Some(FreePlan)
    ensures FreePlan.googleImagenCredits == 0 && FreePlan.pollinationsCredits == 20
  {
    CatalogLookupRoundTrip();
  }

  /** Only the free entry has no checkout link. */
  lemma OnlyFreeHasNoPurchaseLink()
    ensures forall p :: p in PricingPlans ==> (p.purchaseLink == "" <==> p.id == "free")
  {
  }
}
