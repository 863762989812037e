/** The static product catalog of the payment provider and its two lookups. */
module Stripe {
  import opened Wrappers
  import Seqs

  /** How the provider charges: once, or as a recurring subscription. */
  datatype Mode = Payment | Subscription

  datatype Product = Product(id: string, priceId: string, name: string, description: string, mode: Mode)

  /** The catalog: a single "Donate" subscription. */
  const Products: seq<Product> := [
    Product("prod_SfDewKDDeGMYzN", "price_1RjtDVLxmSamPrG3GuU8LeBZ", "Donate", "Donate for a cause", Subscription)
  ]

  /** `getProductById`: the first catalog entry with this id, or None when
      no entry has it. */
  function ProductById(catalog: seq<Product>, id: string): (r: Option<Product>)
    ensures r.None? <==> forall i :: 0 <= i < |catalog| ==> catalog[i].id != id
    ensures r.Some? ==> r.value in catalog && r.value.id == id
    ensures r.Some? ==> exists i :: 0 <= i < |catalog| && catalog[i] == r.value
                                    && forall j :: 0 <= j < i ==> catalog[j].id != id
  {
    Seqs.Find(catalog, (p: Product) => p.id == id)
  }

  /** `getProductByPriceId`: the first catalog entry with this price id, or
      None when no entry has it. */
  function ProductByPriceId(catalog: seq<Product>, priceId: string): (r: Option<Product>)
    ensures r.None? <==> forall i :: 0 <= i < |catalog| ==> catalog[i].priceId != priceId
    ensures r.Some? ==> r.value in catalog && r.value.priceId == priceId
    ensures r.Some? ==> exists i :: 0 <= i < |catalog| && catalog[i] == r.value
                                    && forall j :: 0 <= j < i ==> catalog[j].priceId != priceId
  {
    Seqs.Find(catalog, (p: Product) => p.priceId == priceId)
  }

  /** The lookups over the site's catalog: the "Donate" subscription is found
      by its id and by its price id, and an unknown id finds nothing. */
  lemma CatalogLookups(id: string)
    ensures |Products| == 1 && Products[0].name == "Donate" && Products[0].mode == Subscription
    ensures ProductById(Products, "prod_SfDewKDDeGMYzN") == Some(Products[0])
    ensures ProductByPriceId(Products, "price_1RjtDVLxmSamPrG3GuU8LeBZ") == Some(Products[0])
    ensures id != "prod_SfDewKDDeGMYzN" ==> ProductById(Products, id).None?
  {
  }
}
