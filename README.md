# Microservices shop: session, guards, security rules and services

This project is a Dafny model of the core of a small shop built from microservices. It has three parts.

**The Angular client**
- The Keycloak session service covers `init`, the token-refresh handler, `logout` and the identity and role queries.
- `authGuard` and `adminGuard`.
- The bearer-token HTTP interceptor.
- The route table.
- The page helpers:
  - the home page's initials and displayed roles;
  - the cart service;
  - the products page's quantity inputs and product form;
  - the orders page's total, status class and status update.

**The security configuration of the gateway and the product service**
- The Keycloak realm-role converter.
- The allowed-issuers validator and the comma-separated list it is built from.
- The validator composition.
- The ordered request rules, together with what Spring Security answers for them: granted, 401 or 403.
- The order service's Feign interceptor, which passes the caller's bearer token on to the product service.

**The back-end services**
- `OrderService`: owner-or-admin access, server-side pricing against the product client, and enrichment.
- `CommandeService`: the same order handling without any caller.
- `ProductService`.

How the model is built:
- Entities are datatypes.
- Repositories are maps from id to entity, plus the next identity value.
- Objects whose state the source updates in place are classes:
  - the session service, the cart, the products page, the Feign request template and the three services.
  - Their methods state the whole new state.
- Loops are methods with invariants, each proved against a function.
  - Examples are the creation loop of `createOrder` and the enrichment `forEach`.
- External answers are parameters:
  - the identity provider's answers;
  - the product client's answers;
  - the current time;
  - the outcome of an HTTP call.

Money is counted in integer cents.

## Model

| member | source | states |
|---|---|---|
| Keycloak.IsAuthenticated | frontend-angular/src/app/services/keycloak.service.ts:61-63 | true exactly when the `authenticated` flag is set and the token is present and non-empty |
| Keycloak.Token | frontend-angular/src/app/services/keycloak.service.ts:65-67 | the adapter's raw token; with the flag set, the session is authenticated exactly when this token is present and non-empty |
| Keycloak.Username | frontend-angular/src/app/services/keycloak.service.ts:69-71 | the `preferred_username` claim when present and non-empty, otherwise "Unknown"; never empty |
| Keycloak.FullName | frontend-angular/src/app/services/keycloak.service.ts:73-81 | the trimmed "given family" name when non-empty (then free of surrounding whitespace), otherwise the username; with no parsed token the username; never empty |
| Keycloak.Email | frontend-angular/src/app/services/keycloak.service.ts:83-85 | the `email` claim when present and non-empty, otherwise "" |
| Keycloak.Roles | frontend-angular/src/app/services/keycloak.service.ts:87-91 | the realm roles followed by the `angular-frontend` client roles, order and duplicates kept; none without a parsed token |
| Keycloak.HasRole | frontend-angular/src/app/services/keycloak.service.ts:93-95 | `hasRole(r)` holds exactly when the realm or the client section grants r; never without a parsed token |
| Keycloak.IsAdmin | frontend-angular/src/app/services/keycloak.service.ts:97-99 | `isAdmin()` holds exactly when the realm or the client section grants ADMIN |
| Keycloak.IsUser | frontend-angular/src/app/services/keycloak.service.ts:101-103 | `isUser()` holds exactly when either section grants CLIENT or the user is an administrator; every administrator is a user |
| Keycloak.RoleUnionExample | frontend-angular/src/app/services/keycloak.service.ts:87-99 | realm role CLIENT plus client role ADMIN gives roles [CLIENT, ADMIN], and the session is admin and user |
| Keycloak.TokenExpiredEffects | frontend-angular/src/app/services/keycloak.service.ts:46-58 | the expiry handler asks for one refresh with minimum validity 30; it logs out to the origin exactly when the refresh is rejected; the handler stays installed |
| Keycloak.RefreshKeepsSession | frontend-angular/src/app/services/keycloak.service.ts:48-53 | a successful refresh with a non-empty token, or a "still valid" answer, keeps an authenticated session authenticated |
| Keycloak.RejectedRefreshSession | frontend-angular/src/app/services/keycloak.service.ts:54-57 | after a rejected refresh the session is authenticated exactly when it was and the adapter kept its token; a cleared token leaves no roles |
| Keycloak.KeycloakService.constructor | frontend-angular/src/app/services/keycloak.service.ts:9-18 | a new service is unauthenticated, and its adapter holds no token and no handler |
| Keycloak.KeycloakService.Init | frontend-angular/src/app/services/keycloak.service.ts:20-42 | returns the adapter's verdict and stores it; installs the refresh handler only when authenticated; a rejected `init` returns false and changes nothing |
| Keycloak.KeycloakService.SetupTokenRefresh | frontend-angular/src/app/services/keycloak.service.ts:44-59 | installs the expiry handler and changes nothing else |
| Keycloak.KeycloakService.TokenExpired | frontend-angular/src/app/services/keycloak.service.ts:46-58 | with a handler installed, the adapter becomes `AfterTokenExpired` of its old state: on a rejection it loses its token if it cleared it, then a logout is asked for; without a handler, nothing changes; `authenticated` is never reset |
| Keycloak.KeycloakService.Logout | frontend-angular/src/app/services/keycloak.service.ts:109-113 | one more logout redirect back to the origin; nothing else changes |
| Keycloak.BootWithoutLogin | frontend-angular/src/app/services/keycloak.service.ts:20-42 | a fresh service whose `init` does not authenticate is unauthenticated, has no roles and has no handler |
| Keycloak.BootWithLogin | frontend-angular/src/app/services/keycloak.service.ts:20-63 | a fresh service whose `init` authenticates returns true and installs the handler; it is authenticated exactly when the token is non-empty |
| Guards.AuthGuard | frontend-angular/src/app/guards/auth.guard.ts:5-15 | allows exactly an authenticated session; never navigates |
| Guards.AdminGuard | frontend-angular/src/app/guards/auth.guard.ts:17-32 | allows exactly an authenticated administrator; refuses silently when not authenticated; otherwise navigates to `/forbidden` and refuses |
| Guards.AdminGuardStricter | frontend-angular/src/app/guards/auth.guard.ts:5-32 | what `adminGuard` allows `authGuard` allows; both refuse silently in exactly the same sessions |
| Guards.AdminGuardRedirectsOnlyWhenAuthenticated | frontend-angular/src/app/guards/auth.guard.ts:25-31 | `adminGuard` navigates exactly for an authenticated non-administrator |
| Interceptor.AuthInterceptor | frontend-angular/src/app/interceptors/auth.interceptor.ts:5-21 | with a non-empty token, the `Authorization` header, matched without regard to case, is set to "Bearer " + token; otherwise the request is forwarded unchanged; URL, method, body and every header of another name are kept |
| Interceptor.AuthenticatedRequestsCarryBearer | frontend-angular/src/app/interceptors/auth.interceptor.ts:7-17 | in an authenticated session every forwarded request carries the session's bearer token |
| Interceptor.InterceptIdempotent | frontend-angular/src/app/interceptors/auth.interceptor.ts:11-20 | intercepting twice with the same token is the same as intercepting once |
| Interceptor.AuthorizationReplacedInAnyCase | frontend-angular/src/app/interceptors/auth.interceptor.ts:11-17 | an authorization header the request already carries, in any spelling, ends up holding the session's bearer value |
| Routes.FirstMatch | frontend-angular/src/app/app.routes.ts:4-28 | the route found is the first in table order whose path is the URL or the wildcard: no earlier route matches; no route is found only when none matches |
| Routes.RunGuards | frontend-angular/src/app/app.routes.ts:8-18 | a route activates exactly when every guard in its `canActivate` allows |
| Routes.Resolve | frontend-angular/src/app/app.routes.ts:4-28 | a listed path resolves to its own route; any other path follows the wildcard's redirect to the home route; the route is in the table and leads to a component |
| Routes.Navigate | frontend-angular/src/app/app.routes.ts:4-28 | a navigation activates exactly when the resolved route's guards all allow, and then one of the four listed components; otherwise it is blocked by the refusing guard's outcome |
| Routes.MainPagesNeedAuthGuardOnly | frontend-angular/src/app/app.routes.ts:5-19 | home, products and orders lead to components guarded by `authGuard` alone |
| Routes.ForbiddenAlwaysReachable | frontend-angular/src/app/app.routes.ts:20-23 | the forbidden page activates in every session |
| Routes.UnknownPathGoesHome | frontend-angular/src/app/app.routes.ts:24-27 | an unlisted path hits the wildcard, redirects to the home route and navigates like the home path |
| Routes.AdminGuardUnused | frontend-angular/src/app/app.routes.ts:4-28 | no route lists `adminGuard` |
| Routes.NavigationNeedsAuthentication | frontend-angular/src/app/app.routes.ts:4-28 | except for the forbidden page, a navigation activates exactly when the session is authenticated; otherwise it is refused without a redirect |
| Home.JoinFirsts | frontend-angular/src/app/components/home/home.component.ts:382 | JavaScript's `parts[0][0] + parts[1][0]`: two first characters join; an empty first piece gives "undefined" followed by the second piece's first character, an empty second piece the first piece's first character followed by "undefined"; two empty pieces give `NaN`, whose `toUpperCase` throws (none) |
| Home.UserInitialsAsWritten | frontend-angular/src/app/components/home/home.component.ts:378-385 | `getUserInitials()` as written: throws exactly when the first two pieces are both empty; two non-empty pieces give their upper-cased first letters; an empty first piece gives "UNDEFINED" followed by the second piece's upper-cased first letter, and an empty second piece the first piece's upper-cased first letter followed by "UNDEFINED"; a single piece gives the first two characters upper-cased |
| Home.InitialsAsWrittenOnWords | frontend-angular/src/app/components/home/home.component.ts:378-385 | a name without a space gives its first two letters upper-cased; when the first two space-separated pieces are non-empty, the result is their upper-cased first letters |
| Home.InitialsAsWrittenDoubleSpace | frontend-angular/src/app/components/home/home.component.ts:378-385 | given name "a" and family name " b" give the full name "a  b", whose initials as written are "AUNDEFINED" |
| Home.InitialsAsWrittenBlankName | frontend-angular/src/app/components/home/home.component.ts:378-385 | a `preferred_username` of " " with no given or family name makes the full name " ", and the initials as written throw |
| Home.UserInitials | frontend-angular/src/app/components/home/home.component.ts:378-385 | the corrected initials: at most two characters; exactly two when the name has two words; otherwise the first two characters upper-cased; never throws |
| Home.InitialsAreShort | frontend-angular/src/app/components/home/home.component.ts:378-385 | the corrected initials are at most two upper-cased letters of the name, and contain no space when the name has two words |
| Home.InitialsAgreeOnWords | frontend-angular/src/app/components/home/home.component.ts:378-385 | on names whose first two pieces are non-empty, the corrected and the as-written initials agree |
| Home.DisplayRoles | frontend-angular/src/app/components/home/home.component.ts:387-395 | keeps exactly the roles not starting with `default-roles-` and not mentioning `offline_access` or `uma_authorization`, each as many times as it occurs, in their original order |
| Home.GetDisplayRoles | frontend-angular/src/app/components/home/home.component.ts:387-395 | `getDisplayRoles()`: exactly the session's roles that are display roles, in the order of `getRoles()`; none without a parsed token |
| Home.DisplayRolesIdempotent | frontend-angular/src/app/components/home/home.component.ts:387-395 | filtering the displayed roles again changes nothing |
| Cart.Bump | frontend-angular/src/app/services/cart.service.ts:22 | items of the product gain the quantity; all other items are unchanged; the length is kept |
| Cart.Added | frontend-angular/src/app/services/cart.service.ts:18-26 | the cart then holds the product; a product already held keeps the length; a new product is appended with the quantity; items of other products are unchanged |
| Cart.Removed | frontend-angular/src/app/services/cart.service.ts:29 | keeps exactly the items of other products |
| Cart.AddExisting | frontend-angular/src/app/services/cart.service.ts:18-23 | adding a product already in the cart raises only its quantity |
| Cart.AddNew | frontend-angular/src/app/services/cart.service.ts:18-25 | adding a new product appends it with the given quantity |
| Cart.AddKeepsUnique | frontend-angular/src/app/services/cart.service.ts:18-26 | adding keeps product ids unique |
| Cart.RemoveKeepsUnique | frontend-angular/src/app/services/cart.service.ts:28-30 | removing keeps product ids unique |
| Cart.RemoveAbsent | frontend-angular/src/app/services/cart.service.ts:28-30 | removing an id no item holds changes nothing |
| Cart.RemoveKeepsOrder | frontend-angular/src/app/services/cart.service.ts:28-30 | the filter equals an independent back-to-front filter, so the order of the kept items is unchanged |
| Cart.TotalsAppend | frontend-angular/src/app/services/cart.service.ts:15-16 | `totalItems` and `totalPrice` are additive over concatenation |
| Cart.BumpTotals | frontend-angular/src/app/services/cart.service.ts:15-22 | bumping the one item of a product by q raises `totalItems` by q and `totalPrice` by its price times q |
| Cart.AddTotals | frontend-angular/src/app/services/cart.service.ts:15-26 | `addToCart(p, q)` raises `totalItems` by q and `totalPrice` by q times the unit price the cart holds for p |
| Cart.CartService.AddToCart | frontend-angular/src/app/services/cart.service.ts:18-26 | the items become `Added(old items, product, quantity)`; unique ids are kept |
| Cart.CartService.RemoveFromCart | frontend-angular/src/app/services/cart.service.ts:28-30 | the items become `Removed(old items, id)`; unique ids are kept |
| Cart.CartService.ClearCart | frontend-angular/src/app/services/cart.service.ts:32-34 | no items; both totals are 0 |
| ProductsPage.RequestedQuantity | frontend-angular/src/app/components/products/products.component.ts:188 | the chosen quantity when set and non-zero, otherwise 1; never 0 |
| ProductsPage.SubmitRequest | frontend-angular/src/app/components/products/products.component.ts:225-232 | an update of the edited id, with the id put into the body, exactly when an id is being edited; otherwise a create with id 0 |
| ProductsPage.ProductsComponent.constructor | frontend-angular/src/app/components/products/products.component.ts:165-173 | no quantities, form hidden, no edited id, empty form |
| ProductsPage.ProductsComponent.UpdateQuantity | frontend-angular/src/app/components/products/products.component.ts:183-185 | sets the one quantity entry; nothing else changes |
| ProductsPage.ProductsComponent.AddToCart | frontend-angular/src/app/components/products/products.component.ts:187-197 | the cart receives the requested quantity and the product's entry is deleted; the form state is unchanged |
| ProductsPage.ProductsComponent.OpenAdd | frontend-angular/src/app/components/products/products.component.ts:222 | no edited id, empty form, form shown |
| ProductsPage.ProductsComponent.OpenEdit | frontend-angular/src/app/components/products/products.component.ts:223 | the edited id is the product's id; the form is a copy of the product; the form is shown |
| ProductsPage.ProductsComponent.CancelForm | frontend-angular/src/app/components/products/products.component.ts:224 | hides the form and changes nothing else |
| ProductsPage.ProductsComponent.SubmitForm | frontend-angular/src/app/components/products/products.component.ts:225-232 | sends `SubmitRequest` of the current state; the form is hidden once the request has been accepted |
| OrdersPage.UnitPrice | frontend-angular/src/app/components/orders/orders.component.ts:132 | the first given of `price`, `unitPrice` and the product's price, or 0 |
| OrdersPage.CalculateTotal | frontend-angular/src/app/components/orders/orders.component.ts:126-135 | the order's total when present and positive; otherwise the sum of unit price times quantity; 0 without items |
| OrdersPage.ItemsTotalFromPrices | frontend-angular/src/app/components/orders/orders.component.ts:130-134 | when every item carries its price, the fallback total is the sum of those prices times quantities |
| OrdersPage.StatusClass | frontend-angular/src/app/components/orders/orders.component.ts:137-139 | the status upper-cased when non-empty, otherwise PENDING; never empty |
| OrdersPage.StatusClassStable | frontend-angular/src/app/components/orders/orders.component.ts:137-139 | the class of a status class is itself: upper-casing a displayed status, or `PENDING`, changes nothing |
| OrdersPage.UpdateStatusRequest | frontend-angular/src/app/components/orders/orders.component.ts:141-148 | nothing is sent for an order without an id; otherwise the order under its id, with only its status replaced |
| JwtSecurity.RoleAuthorities | gateway-service/src/main/java/com/tp/gatewayservice/config/SecurityConfig.java:93-111 | one authority "ROLE_" + r per realm role, in order; none when `realm_access` is missing, empty or has no roles |
| JwtSecurity.AuthoritiesRoundTrip | product-service/src/main/java/com/tp/productservice/config/SecurityConfig.java:87-105 | removing the prefix from the authorities gives back the realm roles |
| JwtSecurity.HasAuthorityIffRealmRole | product-service/src/main/java/com/tp/productservice/config/SecurityConfig.java:87-105 | "ROLE_" + r is granted exactly when r is a realm role |
| JwtSecurity.ValidateIssuer | gateway-service/src/main/java/com/tp/gatewayservice/config/SecurityConfig.java:114-130 | succeeds exactly when the issuer is present and allowed; otherwise fails with the single error `invalid_token` |
| JwtSecurity.ValidateToken | product-service/src/main/java/com/tp/productservice/config/SecurityConfig.java:79-82 | succeeds exactly when the default checks pass and the issuer is allowed; the default errors come first |
| JwtSecurity.TrimmedPieces | gateway-service/src/main/java/com/tp/gatewayservice/config/SecurityConfig.java:133-136 | the trimmed non-empty pieces: every non-empty trimmed piece is included, and every element is non-empty and trimmed |
| JwtSecurity.ParseCsvToSet | gateway-service/src/main/java/com/tp/gatewayservice/config/SecurityConfig.java:132-137 | the set holds exactly the non-empty trimmed comma-separated pieces; each element is comma-free and comes from some piece |
| JwtSecurity.ParseTwoEntries | product-service/src/main/java/com/tp/productservice/config/SecurityConfig.java:126-131 | a list of two trimmed non-empty entries parses to exactly those two |
| JwtSecurity.DefaultIssuersWellFormed | gateway-service/src/main/java/com/tp/gatewayservice/config/SecurityConfig.java:68 | the default list splits into the localhost and keycloak realm URLs, both non-empty and trimmed |
| JwtSecurity.DefaultIssuersParsed | product-service/src/main/java/com/tp/productservice/config/SecurityConfig.java:76 | the default allow-list holds exactly the two realm URLs |
| AccessRules.FirstMatching | gateway-service/src/main/java/com/tp/gatewayservice/config/SecurityConfig.java:49-52 | the index of the first rule whose matcher fits; no earlier rule fits |
| AccessRules.Decide | product-service/src/main/java/com/tp/productservice/config/SecurityConfig.java:42-57 | granted exactly when the first matching rule's access is satisfied; refusal is 401 only for an anonymous caller and 403 only for a principal |
| AccessRules.FirstMatchDecides | product-service/src/main/java/com/tp/productservice/config/SecurityConfig.java:42-57 | the decision depends on the first matching rule alone |
| AccessRules.AnonymousOnlyThroughPermitAll | product-service/src/main/java/com/tp/productservice/config/SecurityConfig.java:42-57 | an anonymous caller is granted exactly where the first matching rule is `permitAll` |
| AccessRules.MoreAuthoritiesGrantMore | product-service/src/main/java/com/tp/productservice/config/SecurityConfig.java:42-57 | a principal with more authorities is granted at least as much |
| AccessRules.Handle | product-service/src/main/java/com/tp/productservice/config/SecurityConfig.java:58-59 | with no bearer token the rules judge an anonymous caller; an invalid token is answered 401; a valid one is judged with its converted authorities |
| GatewaySecurity.GatewayDecision | gateway-service/src/main/java/com/tp/gatewayservice/config/SecurityConfig.java:49-52 | granted exactly for OPTIONS, for `/actuator` and below, or for an authenticated caller; never 403 |
| ProductSecurity.OpenPathsGranted | product-service/src/main/java/com/tp/productservice/config/SecurityConfig.java:44-45 | the H2 console and the actuator are open to everyone |
| ProductSecurity.ReadNeedsAdminOrClient | product-service/src/main/java/com/tp/productservice/config/SecurityConfig.java:49 | GET on products is granted exactly to holders of ROLE_ADMIN or ROLE_CLIENT |
| ProductSecurity.WriteNeedsAdmin | product-service/src/main/java/com/tp/productservice/config/SecurityConfig.java:52-54 | POST, PUT and DELETE on products are granted exactly to holders of ROLE_ADMIN |
| ProductSecurity.OtherRequestsNeedAuthentication | product-service/src/main/java/com/tp/productservice/config/SecurityConfig.java:57 | every request outside the open paths that is not GET, POST, PUT or DELETE on products is granted exactly to an authenticated caller; this includes PATCH, HEAD and OPTIONS on products |
| ProductSecurity.ClientReadsButCannotWrite | product-service/src/main/java/com/tp/productservice/config/SecurityConfig.java:49-54 | a token with realm role CLIENT and not ADMIN may GET products, and gets 403 for POST, PUT and DELETE |
| ProductSecurity.AdminReadsAndWrites | product-service/src/main/java/com/tp/productservice/config/SecurityConfig.java:49-54 | a token with realm role ADMIN may read and change products |
| ProductSecurity.AnonymousProductRequestsRefused | product-service/src/main/java/com/tp/productservice/config/SecurityConfig.java:49-57 | without a token every product request is answered 401 |
| Principal.IsAdmin | order-service/src/main/java/com/tp/orderservice/services/OrderService.java:110-114 | an authentication is present and one of its authorities is exactly `ROLE_ADMIN`; false without authentication |
| Principal.UserId | order-service/src/main/java/com/tp/orderservice/services/OrderService.java:116-125 | a JWT's `preferred_username` when present, else the authentication's name; "unknown" without authentication |
| FeignSecurity.BearerHeader | order-service/src/main/java/com/tp/orderservice/config/FeignSecurityConfig.java:18-23 | a header value exactly for a JWT authentication with a non-empty token, and that value is "Bearer " + token |
| FeignSecurity.RequestTemplate.constructor | order-service/src/main/java/com/tp/orderservice/config/FeignSecurityConfig.java:17 | the template holds the given headers |
| FeignSecurity.RequestTemplate.Header | order-service/src/main/java/com/tp/orderservice/config/FeignSecurityConfig.java:22 | merges the value into the values recorded under that name in any spelling, as Feign's ordered set of values: an empty value or one already held adds nothing |
| FeignSecurity.AppendValue | order-service/src/main/java/com/tp/orderservice/config/FeignSecurityConfig.java:22 | the merged values are the old ones, in order, plus the new value exactly when it is non-empty and not yet held; values without repeats stay without repeats |
| FeignSecurity.AppendValueIdempotent | order-service/src/main/java/com/tp/orderservice/config/FeignSecurityConfig.java:22 | merging the same value a second time changes nothing, so a template intercepted twice keeps one bearer value |
| FeignSecurity.ApplyBearer | order-service/src/main/java/com/tp/orderservice/config/FeignSecurityConfig.java:15-26 | adds the `Authorization` value "Bearer " + token, in whatever case the header was recorded, unless the template already holds it, when there is a token; otherwise leaves the template unchanged; headers of other names are kept |
| FeignSecurity.TokenRelayed | order-service/src/main/java/com/tp/orderservice/config/FeignSecurityConfig.java:18-23 | the relayed credential is the caller's own token, and different tokens give different headers |
| Repository.SaveId | product-service/src/main/java/com/tp/productservice/services/ProductService.java:20-22 | `save` keeps a stored id (an overwrite) and otherwise uses the next identity value |
| OrderDomain.PriceItem | order-service/src/main/java/com/tp/orderservice/services/OrderService.java:51-61 | succeeds exactly when the product is found with enough stock, taking its price and product; an unknown product is "not found"; a found product with too little stock is "insufficient stock" with its name; a client exception propagates |
| OrderDomain.Priced | order-service/src/main/java/com/tp/orderservice/services/OrderService.java:47-66 | the creation loop over the items in order; on success one priced item per item, each for the same product |
| OrderDomain.PricedOkIff | order-service/src/main/java/com/tp/orderservice/services/OrderService.java:49-66 | creation succeeds exactly when every item's product is found with enough stock |
| OrderDomain.PricedItems | order-service/src/main/java/com/tp/orderservice/services/OrderService.java:59-61 | on success every item keeps its position, id, product id and quantity, and takes the catalogue price and product |
| OrderDomain.PricedAmount | order-service/src/main/java/com/tp/orderservice/services/OrderService.java:63 | on success the summed amount is the cost of the items at catalogue prices |
| OrderDomain.PricedFirstFailure | Commande-service/src/main/java/com/tp/commandeservice/services/CommandeService.java:48-56 | a failure is the exception of the first unavailable item |
| OrderDomain.PricedFailureStops | order-service/src/main/java/com/tp/orderservice/services/OrderService.java:50-57 | once a prefix has failed, later items change nothing |
| OrderDomain.PriceItems | order-service/src/main/java/com/tp/orderservice/services/OrderService.java:47-66 | the loop's result is `Priced` of the items, and the total is their amount; a failure is the same error |
| OrderDomain.Placed | order-service/src/main/java/com/tp/orderservice/services/OrderService.java:41-68 | dated with `now` only when undated; id, status and owner kept; priced items and their amount as total (0 without items); fails exactly when pricing fails |
| OrderDomain.PlacedTotalIsCatalogTotal | Commande-service/src/main/java/com/tp/commandeservice/services/CommandeService.java:45-66 | the saved total is the cost of the items at catalogue prices |
| OrderDomain.Persisted | order-service/src/main/java/com/tp/orderservice/entities/OrderItem.java:26-27 | what the database keeps of an order: every field and every item field except the `@Transient` product copy, which reads back empty; an order already without copies is kept as it is |
| OrderDomain.PersistedKeepsAmount | order-service/src/main/java/com/tp/orderservice/entities/OrderItem.java:26-27 | dropping the product copies keeps the amount of the items |
| OrderDomain.EnrichItem | order-service/src/main/java/com/tp/orderservice/services/OrderService.java:99-104 | a found product is set; an unknown product sets null; an exception leaves the item unchanged; id, product id, quantity and price are kept |
| OrderDomain.ReloadedProducts | order-service/src/main/java/com/tp/orderservice/services/OrderService.java:96-104 | a stored order read back carries a product on an item exactly when the product client found that product; after a failed call the item has none |
| OrderDomain.Enriched | order-service/src/main/java/com/tp/orderservice/services/OrderService.java:98-105 | every item enriched at its own position |
| OrderDomain.EnrichOrder | order-service/src/main/java/com/tp/orderservice/services/OrderService.java:96-106 | only the items change; an order without items is unchanged |
| OrderDomain.EnrichProducts | order-service/src/main/java/com/tp/orderservice/services/OrderService.java:95-108 | the loop's result is `Enriched` of the items |
| OrderDomain.EnrichKeepsAmount | order-service/src/main/java/com/tp/orderservice/services/OrderService.java:95-108 | enrichment changes no item's amount |
| OrderDomain.EnrichIdempotent | Commande-service/src/main/java/com/tp/commandeservice/services/CommandeService.java:85-100 | enriching twice against the same catalogue is enriching once |
| OrderServiceModel.OrderService.constructor | order-service/src/main/java/com/tp/orderservice/services/OrderService.java:24-27 | an empty store whose orders are well-keyed and owned |
| OrderServiceModel.OrderService.GetOrderById | order-service/src/main/java/com/tp/orderservice/services/OrderService.java:29-39 | null for an unknown id; the enriched order for an administrator or the owner; access denied for anyone else, or a null-owner exception; never that exception for owned orders |
| OrderServiceModel.OrderService.CreateOrder | order-service/src/main/java/com/tp/orderservice/services/OrderService.java:41-71 | answers `Placed` of the order with the caller as owner, under `SaveId`, and stores it without its items' product copies (`Persisted`); the owner is always the caller; a pricing failure leaves the store unchanged; keys, ownership and copy-free items are kept |
| OrderServiceModel.OrderService.UpdateOrder | order-service/src/main/java/com/tp/orderservice/services/OrderService.java:73-81 | only the stored order's status and total change; an unknown id changes nothing |
| OrderServiceModel.OrderService.DeleteOrderById | order-service/src/main/java/com/tp/orderservice/services/OrderService.java:83-85 | removes the id if stored |
| OrderServiceModel.OrderService.GetAllOrders | order-service/src/main/java/com/tp/orderservice/services/OrderService.java:87-93 | exactly the enriched orders the caller may see: all of them for an administrator, otherwise only those the caller owns |
| CommandeServiceModel.CommandeService.constructor | Commande-service/src/main/java/com/tp/commandeservice/services/CommandeService.java:17-23 | an empty, well-keyed store |
| CommandeServiceModel.CommandeService.GetCommandeById | Commande-service/src/main/java/com/tp/commandeservice/services/CommandeService.java:25-38 | null for an unknown id; otherwise the enriched commande, with no access check |
| CommandeServiceModel.CommandeService.CreateCommande | Commande-service/src/main/java/com/tp/commandeservice/services/CommandeService.java:40-69 | answers `Placed` of the commande under `SaveId`, with the owner kept as sent, and stores it without its items' product copies (`Persisted`); a pricing failure leaves the store unchanged |
| CommandeServiceModel.CommandeService.UpdateCommande | Commande-service/src/main/java/com/tp/commandeservice/services/CommandeService.java:71-79 | only the stored commande's status and total change; an unknown id changes nothing |
| CommandeServiceModel.CommandeService.DeleteCommandeById | Commande-service/src/main/java/com/tp/commandeservice/services/CommandeService.java:81-83 | removes the id if stored |
| CommandeServiceModel.CommandeService.GetAllCommandes | Commande-service/src/main/java/com/tp/commandeservice/services/CommandeService.java:85-100 | exactly the stored commandes, enriched |
| ProductServiceModel.Updated | product-service/src/main/java/com/tp/productservice/services/ProductService.java:26-29 | the name, description and price come from the details; the id and stock are those of the stored product |
| ProductServiceModel.Stored | product-service/src/main/java/com/tp/productservice/services/ProductService.java:20-22 | the body's fields stored under the given id |
| ProductServiceModel.ProductService.constructor | product-service/src/main/java/com/tp/productservice/services/ProductService.java:10-14 | an empty, well-keyed store |
| ProductServiceModel.ProductService.GetProductById | product-service/src/main/java/com/tp/productservice/services/ProductService.java:16-18 | the stored product, which carries that id, or null for an unknown id |
| ProductServiceModel.ProductService.CreateProduct | product-service/src/main/java/com/tp/productservice/services/ProductService.java:20-22 | overwrites exactly when the body's id is stored; otherwise stores under the next identity value |
| ProductServiceModel.ProductService.UpdateProduct | product-service/src/main/java/com/tp/productservice/services/ProductService.java:24-34 | the stored product becomes `Updated`; null and no change for an unknown id |
| ProductServiceModel.ProductService.DeleteProductById | product-service/src/main/java/com/tp/productservice/services/ProductService.java:36-38 | removes the id if stored |
| ProductServiceModel.ProductService.GetAllProducts | product-service/src/main/java/com/tp/productservice/services/ProductService.java:39-41 | exactly the stored products |
| EndToEnd.CatalogOf | order-service/src/main/java/com/tp/orderservice/clients/ProductRestClient.java:14-17 | the product client answering from the product store: the stored product, or null |
| EndToEnd.OrderAgainstStore | order-service/src/main/java/com/tp/orderservice/services/OrderService.java:49-66 | against the product store, an order is accepted exactly when every item's product is stored with enough stock, and it then costs the stored prices |
| EndToEnd.EditedStockIsKept | product-service/src/main/java/com/tp/productservice/services/ProductService.java:24-34 | the edit form sends a stock value, but the service keeps the stored stock |
| EndToEnd.CreatedFromPageGetsFreshId | frontend-angular/src/app/components/products/products.component.ts:230 | a product added on the page (id 0) is stored under the next identity value and never overwrites a stored product |

## Left out

**Browser and network**
- Keycloak's protocol internals are not modelled: the PKCE handshake, the redirects and the token decoding. The adapter's answers to `init` and `updateToken` are parameters.
- `login()` and `getKeycloakInstance()` only hand over to the adapter, so they are not modelled.
- When the adapter drops its token on a refused refresh, its own `onAuthLogout` callback and its own login redirect are not modelled. The service installs no `onAuthLogout`.
- Asynchrony is not modelled. Promises and observables are modelled by their settled outcome, passed as a parameter. This includes the `subscribe` callbacks of the pages.
- The console logging is not modelled.

**Page operations that only call the API**
- `loadProducts`, `checkout` and `deleteProduct` on the products page are not modelled. They are HTTP calls, `confirm`/`alert` dialogs and navigation.
- `updateField` on the products page is not modelled. It writes the input's raw string into `formData` under the field's name, even for the number inputs of price and stock. The model's form holds typed values, so string-typed prices and stocks in the form are not modelled.
- The orders page's `loadOrders` and `deleteOrder` are not modelled, for the same reason. Only the request that `updateStatus` builds is modelled.
- `order.service.ts` has no `updateOrder` method. The orders page calls it anyway, so the model stops at the request value the page builds.

**Text and numbers**
- `Text.Upper` upper-cases ASCII letters only. JavaScript's `toUpperCase` also maps non-ASCII letters. In the same way, `Text.Lower` folds only ASCII letters when header names are matched without regard to case.
- `Home.InitialsAsWrittenOnWords`: a Dafny string is a sequence of whole Unicode characters, while JavaScript indexes strings by UTF-16 code units. For a piece starting with a character outside the Basic Multilingual Plane, `parts[i][0]` in the source is a lone surrogate code unit; the model gives the whole character.
- `Home.UserInitialsAsWritten`: for the same reason, `name.substring(0, 2)` in the source can keep one character outside the Basic Multilingual Plane (two code units) or split one in half, where `Text.Prefix` keeps two whole characters. The other string operations of the core (`split(' ')`, `trim`, `startsWith`, `includes`) give the same result on characters and on code units.
- `FeignSecurity.RequestTemplate.Header`: Feign also reads `{...}` in a header value as a template expression. The model stores values literally; a bearer token never contains braces.
- Prices and totals are integer cents. The services compute in `double`, and the orders page's `calculateTotal` (`OrdersPage.CalculateTotal`) computes in JavaScript numbers. So floating-point rounding is not modelled on either side.
- A `null` item quantity is not modelled. Java's unboxing would throw on it.
- Order status is a free string. The client's status enum is not modelled.
- The Java `String.split` drops trailing empty pieces. `Text.Split` keeps them. The parsed set is the same either way, because empty pieces are filtered out.

**Spring Security**
- The default JWT validators (timestamps and signature) are not modelled. `ValidateToken` takes their errors as a parameter.
- The decoder and filter wiring, CORS, CSRF, session management and frame options are not modelled.
- A request that no rule matches would be denied. Both rule lists end with `anyRequest`, so that case never arises.
- An invalid bearer token is answered 401 before any rule is consulted, even on `permitAll` paths. `AccessRules.Handle` models this Spring behaviour.

**Persistence**
- JPA persistence is a map from id to entity plus the next identity value.
  - `save` of an entity with an id that is not stored is simplified to storing it under the next identity value. This assumes a Hibernate version before 6.6, whose merge inserts such an entity with a generated id. From Hibernate 6.6 on, merging a detached entity with a generated id and no matching row throws `OptimisticLockException`, so the page's create with id 0 would fail. The build files that fix the version are not part of this model.
  - The generated ids of order items are not modelled.
  - The transient `product` copy is never stored: the services store `OrderDomain.Persisted` of the saved order, and the answer keeps the copies.
- `findAll` and `findByUserId` return sets. The order JPA returns is not modelled.
- The Feign client is a function from product id to lookup result (found, `null` or an exception). It does not modify the store it reads.

**Services**
- `CommandeController` is not part of this model. Its calls into `CommandeService` are not checked against the service.
- `FeignSecurity.ApplyBearer`: the security context is a parameter, because the interceptor only reads it.
- `OrderServiceModel.OrderService.GetOrderById`: the `NullPointerException` for an order without an owner is modelled as `MissingOwner`. It cannot happen for orders created through `CreateOrder` (see `Owned`).

**Where the model follows the code**
- The code and the component's documented design differ in a few places, and the model follows the code:
  - a rejected token refresh calls `logout()` but never resets `authenticated` (`Keycloak.KeycloakService.TokenExpired`). The session ends only because the adapter drops its token when the identity provider refuses the refresh (`Keycloak.RejectedRefreshSession`). A rejection for a network error keeps the token;
  - `logout()` only asks the adapter for a redirect and clears no state;
  - `init()` can be called again; nothing enforces a single call.
- `updateProduct` ignores the stock quantity the edit form sends (`EndToEnd.EditedStockIsKept`). This is how the code behaves, not a modelling gap.

## Findings

| source | as written | input that shows it | evidently intended | confidence | as-written member | corrected member |
|---|---|---|---|---|---|---|
| frontend-angular/src/app/components/home/home.component.ts:378-385 | `getUserInitials` splits the full name on single spaces and joins `parts[0][0] + parts[1][0]`; an empty second piece contributes the string "undefined" | given name "a", family name " b" (full name "a  b") gives "AUNDEFINED" | the initials are the first letters of the first two words, at most two characters | not executed | Home.InitialsAsWrittenDoubleSpace | Home.InitialsAreShort |
| frontend-angular/src/app/components/home/home.component.ts:378-385 | when the first two pieces of the name are both empty, `parts[0][0] + parts[1][0]` is `undefined + undefined`, which is `NaN`, and `NaN.toUpperCase()` throws a TypeError | `preferred_username` " " with no given or family name (full name " ") throws | the initials are defined for every name, at most two characters | not executed | Home.InitialsAsWrittenBlankName | Home.InitialsAreShort |
