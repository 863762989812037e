/** The donate button's decision logic: refuse without a user, find the
    "Donate" product, ask the payment provider for a checkout session, and
    navigate only to a URL the provider returned. */
module Donate {
  import opened Wrappers
  import Seqs
  import opened Stripe
  import Auth

  /** The body of the checkout-session request. */
  datatype CheckoutRequest = CheckoutRequest(priceId: string, mode: Mode, successUrl: string, cancelUrl: string)

  /** What the provider answered: the request failed outright, or a response
      arrived with its ok flag and, when its body parsed, the `url` field
      (None when absent). */
  datatype ProviderResponse = NetworkError | Response(ok: bool, url: Option<string>)

  datatype Outcome = AuthRequired | ProductMissing | ProviderError | Redirect(url: string)

  /** Everything one click does: the outcome, the request sent (if any), the
      alert shown (if any), and the values written to the loading flag, in order. */
  datatype Donation = Donation(outcome: Outcome, request: Option<CheckoutRequest>,
                               alert: Option<string>, loading: seq<bool>)

  const LoginAlert: string := "Please log in to make a donation"
  const FailureAlert: string := "Failed to start donation process. Please try again."
  const SuccessPath: string := "/success?session_id={CHECKOUT_SESSION_ID}"
  const CancelPath: string := "/donate"

  /** The request for a product, with redirect targets under the page's origin;
      the provider replaces the `{CHECKOUT_SESSION_ID}` placeholder. */
  function RequestFor(p: Product, origin: string): (req: CheckoutRequest)
    ensures req.priceId == p.priceId && req.mode == p.mode
    ensures |req.successUrl| == |origin| + |SuccessPath| && |req.cancelUrl| == |origin| + |CancelPath|
    ensures req.successUrl[..|origin|] == origin && req.successUrl[|origin|..] == SuccessPath
    ensures req.cancelUrl[..|origin|] == origin && req.cancelUrl[|origin|..] == CancelPath
  {
    CheckoutRequest(p.priceId, p.mode, origin + SuccessPath, origin + CancelPath)
  }

  /** `handleDonation`, with the provider's answer as an input: it is read only
      when a request is actually sent. JavaScript treats an empty URL as
      missing. */
  function HandleDonation(user: Option<Auth.User>, catalog: seq<Product>, origin: string,
                          response: ProviderResponse): (d: Donation)
    // no user: refuse before any request, leaving the loading flag alone
    ensures user.None? <==> d.outcome == AuthRequired
    ensures user.None? ==> d.request.None? && d.loading == [] && d.alert == Some(LoginAlert)
    // with a user the flag goes up, then down on every path
    ensures user.Some? ==> d.loading == [true, false]
    // no "Donate" product: fail without a request
    ensures (user.Some? && forall i :: 0 <= i < |catalog| ==> catalog[i].name != "Donate") ==>
              d.outcome == ProductMissing && d.request.None? && d.alert == Some(FailureAlert)
    // a request is sent exactly when there is a user and a "Donate" product,
    // and it is for the first such product
    ensures d.request.Some? <==> user.Some? && exists i :: 0 <= i < |catalog| && catalog[i].name == "Donate"
    ensures d.request.Some? ==>
              exists i :: (0 <= i < |catalog| && catalog[i].name == "Donate"
                           && (forall j :: 0 <= j < i ==> catalog[j].name != "Donate")
                           && d.request.value == RequestFor(catalog[i], origin))
    // navigation only to a non-empty URL of an ok response to a sent request
    ensures d.outcome.Redirect? <==>
              (d.request.Some? && response.Response? && response.ok
               && response.url.Some? && response.url.value != "")
    ensures d.outcome.Redirect? ==> d.outcome.url == response.url.value && d.alert.None?
    ensures d.request.Some? && !d.outcome.Redirect? ==> d.outcome == ProviderError && d.alert == Some(FailureAlert)
  {
    if user.None? then
      Donation(AuthRequired, None, Some(LoginAlert), [])
    else
      match Seqs.Find(catalog, (p: Product) => p.name == "Donate")
      case None => Donation(ProductMissing, None, Some(FailureAlert), [true, false])
      case Some(product) =>
        var req := RequestFor(product, origin);
        if response.NetworkError? || !response.ok then
          Donation(ProviderError, Some(req), Some(FailureAlert), [true, false])
        else if response.url.None? || response.url.value == "" then
          Donation(ProviderError, Some(req), Some(FailureAlert), [true, false])
        else
          Donation(Redirect(response.url.value), Some(req), None, [true, false])
  }

  /** With the site's catalog, a signed-in user's request is for the "Donate"
      subscription's price, and its success target carries the session placeholder. */
  lemma SiteCatalogRequest(u: Auth.User, origin: string, response: ProviderResponse)
    ensures HandleDonation(Some(u), Products, origin, response).request
            == Some(CheckoutRequest("price_1RjtDVLxmSamPrG3GuU8LeBZ", Subscription,
                                    origin + "/success?session_id={CHECKOUT_SESSION_ID}",
                                    origin + "/donate"))
  {
  }
}
