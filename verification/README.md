# ChildHope site logic, modelled in Dafny

The ChildHope site is a non-profit's React website. Nearly all of it is markup.
Six small pieces carry logic, and this project models each as pure Dafny
functions over immutable datatypes, with the properties the code promises
proved about them:

- **Chatbot** (`chatbot.dfy`): the scripted assistant. A fixed, ordered keyword table maps to canned replies. The message is lower-cased and the first key that occurs in it selects the reply. Otherwise a fallback reply echoes the message. The conversation starts with a greeting and is append-only; blank input is ignored.
- **Auth** (`auth.dfy`): the mock authentication provider. The session holds the current user, the authenticated flag and the one-slot browser store. The operations are the start-up restore, `login`, `register`, `logout` and `updateProfile`, plus the admin page's role gate.
- **Blog** (`blog.dfy`): the tag menu (de-duplicated tags), the search-and-tag filter, the featured/regular split, and the tag labels.
- **Volunteer** (`volunteer.dfy`): toggling an opportunity id in the selection.
- **Stripe** (`stripe.dfy`): the static product catalog and its lookups by id and by price id.
- **Donate** (`donate.dfy`): the donate button's decision. It checks for a user, looks up the "Donate" product and builds the checkout request. It turns the provider's answer into a redirect or a failure, and records the alert shown and the loading flag's writes.

Shared modules:
- `wrappers.dfy` defines `Option`.
- `strings.dfy` holds the JavaScript string primitives: ASCII case mapping, `includes`, `trim` and `split('@')[0]`.
- `seqs.dfy` holds the array primitives: `filter`, `find`/`findIndex`, `Array.from(new Set(..))`, plus subsequence and no-duplicate predicates.

The mock account provider is more permissive than a real account service:
- `login` never fails.
- `register` accepts any role, including admin.
- `updateProfile` overwrites any supplied field, `id` and `email` included.

The model does the same. The lemmas `RegisterAdminGate` and `Merge`'s contract state these behaviours.

## Model

| member | source | states |
|---|---|---|
| `Seqs.Find` | src/stripe-config.ts:20 | the element found satisfies the predicate and sits at an index before which none does; None exactly when no element satisfies it |
| `Seqs.FindIndex` | src/stripe-config.ts:19-25 | the index of the FIRST element satisfying the predicate, or None exactly when no element does |
| `Seqs.Filter` | src/pages/BlogPage.tsx:120-128 | the result is an order-preserving subsequence holding exactly the satisfying elements, each with its original multiplicity |
| `Seqs.Dedup` | src/pages/BlogPage.tsx:118 | no duplicates, same members as the input, ordered by first occurrence in the input |
| `Seqs.FilterPartition` | src/pages/BlogPage.tsx:127-128 | filtering by a predicate and by its negation splits the multiset of elements exactly, so the lengths add up |
| `Seqs.FilterAllKept` | src/pages/BlogPage.tsx:120-125 | filtering by a predicate that every element satisfies changes nothing |
| `Seqs.SubseqNoDup` | src/pages/VolunteerPage.tsx:131 | a subsequence of a duplicate-free sequence is duplicate-free |
| `Strings.TrimEmptyIffAllWhitespace` | src/components/Chatbot.tsx:58 | `trim()` yields the empty string exactly when every character is JavaScript whitespace |
| `Strings.TrimStart` | src/components/Chatbot.tsx:58 | the removed prefix is all whitespace and the rest does not start with whitespace |
| `Strings.TrimEnd` | src/components/Chatbot.tsx:58 | the removed suffix is all whitespace and the rest does not end with whitespace |
| `Strings.TakeUntil` | src/contexts/AuthContext.tsx:56 | the result is a prefix of the email free of '@'; it is followed by '@' when the email has one, and is the whole email otherwise |
| `Strings.Lower` | src/components/Chatbot.tsx:45 | `toLowerCase` keeps the length, maps each upper-case letter to its lower-case partner and leaves every other character alone, so no upper-case letter remains and a string without one is unchanged |
| `Strings.LowerChar` | src/components/Chatbot.tsx:45 | `toLowerCase` on one character: an upper-case ASCII letter becomes its lower-case partner, every other character is unchanged, and no upper-case letter remains |
| `Strings.UpperChar` | src/pages/BlogPage.tsx:257 | `toUpperCase` on one character: a lower-case ASCII letter becomes its upper-case partner, every other character is unchanged, and no lower-case letter remains |
| `Strings.ContainsIgnoringCase` | src/components/Chatbot.tsx:45-48 | a substring occurs in the lower-cased text exactly when some stretch of the text as typed lower-cases to it |
| `Strings.Trim` | src/components/Chatbot.tsx:58 | `trim()` is a middle stretch of the string with only whitespace before and after it, and it neither starts nor ends with whitespace |
| `Chatbot.FirstMatch` | src/components/Chatbot.tsx:47-51 | the index of the lowest table entry whose key occurs in the lower-cased message; None exactly when no key occurs; any first match is that index |
| `Chatbot.ReplyFrom` | src/components/Chatbot.tsx:44-55 | with a matching key, the reply of the lowest-index matching entry; with none, fallback prefix + the message as typed + fallback suffix; total |
| `Chatbot.KeysAreLowerCase` | src/components/Chatbot.tsx:33-42 | every key of the table is its own lower-casing |
| `Chatbot.MatchIsCaseInsensitive` | src/components/Chatbot.tsx:45-51 | messages with the same lower-casing select the same table entry and, when one matches, the same reply |
| `Chatbot.ReplyOfFirstMatch` | src/components/Chatbot.tsx:33-51 | once entry i matches and no earlier entry does, the assistant answers with entry i's reply |
| `Chatbot.DonateWinsOverLaterKeys` | src/components/Chatbot.tsx:34-51 | a message mentioning "donate" but not "hello" gets the donation reply, whatever later keys it also mentions |
| `Chatbot.MissionReply` | src/components/Chatbot.tsx:33-51 | a message mentioning "mission" and none of the three earlier keys gets the mission statement |
| `Chatbot.HelloExample` | src/components/Chatbot.tsx:34-51 | "Hello there" gets the greeting reply despite the capital letter |
| `Chatbot.EmptyMessageFallsBack` | src/components/Chatbot.tsx:44-55 | the empty message matches no key and gets the fallback |
| `Chatbot.NoKeyFallsBack` | src/components/Chatbot.tsx:44-55 | a message whose lower-casing contains none of the eight keys gets the fallback, which echoes the message as typed |
| `Chatbot.GibberishLacksFirstKeys` | src/components/Chatbot.tsx:34-37 | "asdkjalksd" contains none of "hello", "donate", "volunteer" and "mission" |
| `Chatbot.GibberishLacksLastKeys` | src/components/Chatbot.tsx:38-41 | "asdkjalksd" contains none of "contact", "help", "programs" and "impact" |
| `Chatbot.GibberishExample` | src/components/Chatbot.tsx:44-55 | "asdkjalksd" gets the fallback that quotes it |
| `Chatbot.BotResponse` | src/components/Chatbot.tsx:44-55 | over the site's eight-entry table: the reply of the first entry whose key occurs in the lower-cased message, and the fallback quoting the message as typed when none does |
| `Chatbot.InitialHistory` | src/components/Chatbot.tsx:13-20 | the conversation starts with one message, the bot's greeting with id "1", and no message from the user |
| `Chatbot.SendMessage` | src/components/Chatbot.tsx:57-83 | blank input leaves the history unchanged; otherwise the old history stays a prefix, followed by the user's message with the input and then the bot's message with the reply to that input |
| `Chatbot.ReplayAppendOnly` | src/components/Chatbot.tsx:57-83 | over any series of sends the starting history stays a prefix, and the history grows by two messages per non-blank send |
| `Chatbot.ConversationOpensWithGreeting` | src/components/Chatbot.tsx:13-20 | whatever is sent, the first message is the bot's greeting with id "1" |
| `Auth.Mount` | src/contexts/AuthContext.tsx:35-36 | on first render nobody is signed in and the flag is off, the store keeps what an earlier visit left, so the invariants hold exactly when nothing is stored |
| `Auth.Restore` | src/contexts/AuthContext.tsx:38-45 | a stored user becomes the current, authenticated user; an empty store changes nothing; a valid session is left unchanged |
| `Auth.RestoreEstablishesValid` | src/contexts/AuthContext.tsx:35-45 | after the start-up restore both invariants hold and the session is authenticated exactly when a user was stored |
| `Auth.LoginUser` | src/contexts/AuthContext.tsx:53-60 | id "1", the given email, the name being the email up to its first '@' (all of it without one), role admin exactly when the email contains "admin" and donor otherwise, zero totals |
| `Auth.Login` | src/contexts/AuthContext.tsx:47-70 | always succeeds, whatever the password; the user becomes the login user and the session is valid |
| `Auth.Register` | src/contexts/AuthContext.tsx:72-94 | always succeeds; the new user has the supplied id, the form's email, name and role, zero totals and no other fields; the session is valid |
| `Auth.Logout` | src/contexts/AuthContext.tsx:96-100 | no user, not authenticated, store empty |
| `Auth.Merge` | src/contexts/AuthContext.tsx:105 | each supplied field overrides, id and email included; each field not supplied keeps its value |
| `Auth.UpdateProfile` | src/contexts/AuthContext.tsx:102-115 | without a user: failure and no change; with one: the merged user becomes current and is stored, success, flag untouched; validity is preserved |
| `Auth.UpdateProfileIdempotent` | src/contexts/AuthContext.tsx:104-108 | applying the same partial update twice gives the same result as once |
| `Auth.LogoutIdempotent` | src/contexts/AuthContext.tsx:96-100 | logging out twice equals logging out once |
| `Auth.RunPreservesValid` | src/contexts/AuthContext.tsx:47-115 | every series of login, register, logout and update steps from a valid session ends in a valid session |
| `Auth.SessionStaysValid` | src/contexts/AuthContext.tsx:35-45 | from start-up on, whatever the visitor does, authenticated holds exactly when there is a user, and the store mirrors the user |
| `Auth.RegisterThenLogin` | src/contexts/AuthContext.tsx:47-94 | logging in with the email just registered gives an authenticated session for that email |
| `Auth.DonorScenario` | src/contexts/AuthContext.tsx:53-89 | registering "a@x.com" as a donor and logging in again gives a donor named "a" with zero donations |
| `Auth.CanViewAdmin` | src/pages/AdminPage.tsx:57 | nobody signed in is turned away, and so is a donor or a volunteer; an admin is let in |
| `Auth.LoginAdminGate` | src/pages/AdminPage.tsx:57 | after login the admin page opens exactly when the email contains "admin" |
| `Auth.RegisterAdminGate` | src/contexts/AuthContext.tsx:77-84 | after registering, the admin page opens exactly when the form asked for the admin role |
| `Blog.FlatTags` | src/pages/BlogPage.tsx:118 | holds every tag of every post and nothing else |
| `Blog.AllTags` | src/pages/BlogPage.tsx:118 | "all" first, then every post tag exactly once, in order of first occurrence |
| `Blog.FilteredPosts` | src/pages/BlogPage.tsx:120-125 | an order-preserving subsequence of the posts; a post is kept exactly when the lower-cased term occurs in its lower-cased title or excerpt and the tag is "all" or one of its tags |
| `Blog.EmptySearchKeepsAll` | src/pages/BlogPage.tsx:120-125 | an empty search with tag "all" keeps every post, in order |
| `Blog.FeaturedPosts` | src/pages/BlogPage.tsx:127 | an order-preserving subsequence of the filtered posts holding exactly its featured posts |
| `Blog.RegularPosts` | src/pages/BlogPage.tsx:128 | an order-preserving subsequence of the filtered posts holding exactly its posts that are not featured |
| `Blog.FeaturedRegularPartition` | src/pages/BlogPage.tsx:127-128 | featured and regular lists each keep the filtered order, hold only featured / only non-featured posts, share nothing, and together hold exactly the filtered posts |
| `Blog.TagLabel` | src/pages/BlogPage.tsx:257 | "All Topics" for "all"; otherwise the same length, first character upper-cased, the rest unchanged |
| `Blog.TagLabelRoundTrip` | src/pages/BlogPage.tsx:257 | lower-casing the label of a lower-case tag other than "all" gives back the tag |
| `Volunteer.Toggle` | src/pages/VolunteerPage.tsx:128-134 | an absent id is appended and the rest unchanged; a present id loses every occurrence while the other ids keep order and multiplicity; the id's membership flips and every other id's is unchanged |
| `Volunteer.ToggleKeepsNoDup` | src/pages/VolunteerPage.tsx:128-134 | a duplicate-free selection stays duplicate-free |
| `Volunteer.ClicksKeepNoDup` | src/pages/VolunteerPage.tsx:128-134 | any series of toggles keeps a duplicate-free selection duplicate-free |
| `Volunteer.SelectionHasNoDuplicates` | src/pages/VolunteerPage.tsx:28 | starting from the empty selection, no id is ever selected twice |
| `Volunteer.ToggleTwiceSameMembers` | src/pages/VolunteerPage.tsx:129-133 | toggling an id twice restores the selection as a set |
| `Volunteer.ToggleTwiceReorders` | src/pages/VolunteerPage.tsx:129-133 | toggling twice need not restore the sequence: a selected id comes back at the end |
| `Stripe.ProductById` | src/stripe-config.ts:19-21 | the first catalog entry with that id, a member of the catalog carrying it; None exactly when no entry has it |
| `Stripe.ProductByPriceId` | src/stripe-config.ts:23-25 | the first catalog entry with that price id, a member carrying it; None exactly when no entry has it |
| `Stripe.CatalogLookups` | src/stripe-config.ts:9-17 | the catalog is one "Donate" subscription, found by its id and by its price id; any other id finds nothing |
| `Donate.RequestFor` | src/pages/DonatePage.tsx:39-44 | the request carries the product's price id and mode; success URL = origin + "/success?session_id={CHECKOUT_SESSION_ID}", cancel URL = origin + "/donate" |
| `Donate.HandleDonation` | src/pages/DonatePage.tsx:19-65 | no user: AuthRequired, no request, login alert, loading untouched. A request is sent exactly when there is a user and a "Donate" product, for the first such product. With no product, ProductMissing. Redirect happens exactly on an ok response with a non-empty URL, and to that URL. Every other path after the request is ProviderError with the failure alert. With a user, loading is set true then false |
| `Donate.SiteCatalogRequest` | src/pages/DonatePage.tsx:28-44 | with the site's catalog, a signed-in user's request is for the "Donate" subscription's price, with the two redirect targets |

## Left out

- Markup, styling, routing and static content are left out; none of it is logic.
- The simulated delays are left out. These are `login`/`register`'s one-second wait, the chatbot's typing delay and its `isTyping` flag. Every operation is instantaneous.
- `Chatbot.SendMessage`: the user's message and the bot's reply are appended in one step. The state between the two, one second apart, is not modelled. The send button is disabled only for blank input (src/components/Chatbot.tsx:169), so a second message sent within that second lands before the first reply (user 1, user 2, bot 1, bot 2). The model always puts each reply right after its own message. Clearing the input box and the `isOpen` flag are not modelled either.
- Message ids from `Date.now()`, the register id and message timestamps become parameters or are dropped. Their uniqueness over time is not modelled.
- `Strings.Lower` and `Strings.UpperChar`: case mapping covers ASCII letters only. JavaScript's `toLowerCase`/`toUpperCase` map all of Unicode. `includes` is compared on characters rather than UTF-16 code units.
- `localStorage` and `JSON.stringify`/`JSON.parse` are left out. The store is the session's `store` field. Storage failures are not modelled, and neither are the `catch` branches of `login`, `register` and `updateProfile` that such failures would reach.
- Numeric user fields (`donations`, `volunteer_hours`) are whole numbers; JavaScript numbers are floating point.
- `Auth.Merge`: a partial update that supplies `undefined` for a required field (id, email, name, role) is not representable. For the optional fields, a supplied `None` stands for `undefined` and clears the field.
- `Donate.HandleDonation`: the endpoint URL, the request headers and `window.location` are left out; the page's origin is a parameter and the provider's response is an input. The `Authorization` header reads `user.accessToken`, a field the `User` type does not declare. A `url` field that is present but not a string is not modelled.
- The page's `donationType` and `isAnonymous` choices are left out. They do not enter the decision.
- The blog post fields that are only displayed (content, author, dates, counters, images) are left out.
- The volunteer form and its `required` validation are library behaviour and are left out. So are the contact and dashboard form handlers, which only set fields or pass through to `updateProfile`.
- A hosted identity provider, subscription-status snapshots with timeouts, login failure, rejection of admin self-registration, and immutable email or id are left out. They do not appear in the modelled code.
