# Freelance platform: status and ownership rules

This project models the core of a freelance marketplace written in ASP.NET
Core with Entity Framework. On the platform:

- clients publish projects and freelancers bid on them;
- freelancers offer services and clients order them;
- an accepted order is paid through a Stripe checkout session;
- the two sides of an order talk in a chat;
- every user has a public profile;
- administrators can open, close and delete projects and services, and read
  a six-month revenue dashboard.

The model covers the web controllers, the JSON API controllers and the admin
pages that read and change the store. It states which caller may do what to
which row, which status changes each action makes, and what each action
answers (NotFound, Forbid, BadRequest, Conflict, Unauthorized, an invalid
form, an unhandled exception, or success).

The database is the class `Data.Db`. It holds one `map` per table, keyed by
the row id, and one id counter per auto-increment key; user profiles and
chats are maps of their own. Each action is a method on a `Db` whose
`modifies db` covers the whole store, and whose `ensures` gives the
complete new state. It does this as one update of the snapshot
`old(db.State())`, so "nothing else changes" is part of every contract.
Read-only actions are methods that return the rows they list; pure parts
of an action (a guard, an effect, a mapping, a query) are functions, and
the lemmas state what the source promises about them.

Modelling choices, in the system's own terms:

- Time is a parameter `now: int`, taken as an opaque timestamp.
- Decimal amounts (prices, budgets, bid amounts) are exact `real`s.
- The identity store is a parameter `users: map<UserId, IdentityUser>`.
- The signed-in user's id is an `Option<UserId>`.
  - `None` where the source throws (`?? throw`, `user!.Id`) is answered
    `ServerError`.
  - `None` where the source answers `Unauthorized` or `Challenge` is
    answered `Unauthorized`.
- A web form whose model state is invalid is answered `InvalidModel`.
- The API's automatic validation of a body is a first `BadRequest` branch.
- `[Range(1, int.MaxValue)]` on a decimal (a bid's Amount, a service's
  Price) converts the value with `Convert.ToInt32`. That rounds to the
  nearest integer, a tie going to the even one, and compares the result.
  A value whose rounding leaves int makes the conversion throw, which the
  attribute does not catch: the request fails with `ServerError` before
  any other check.
- Checkout sessions are plain values:
  - The Stripe provider's answer for a session is a parameter
    `statusOf: string -> ProviderReply`.
  - The provider's opening of a session is a parameter
    `createSession`.
- Listings are sequences of `(id, row)` pairs.
  - `Data.Rows` hands back every row of a table once, so every listing
    lists each row at most once.
  - Filtering is `Listing.Filter`.
  - Ordering is an insertion sort, `Listing.SortBy`, proved sorted and a
    permutation of its input.

The API project actions bind the request types declared in
`Controllers/Api/ProjectController.cs` itself (`CreateProjectDto` and
`UpdateProjectDto`, lines 160-174), not the annotated
`Dto/Projects/UpdateProjectDto.cs`:

- Those types carry no attributes. Their non-nullable Title and
  Description get ASP.NET Core's implicit `[Required]`, so a null, empty or
  white-space title or description is `BadRequest`. The budget is not
  checked.
- `CreateProjectDto` defaults the status to Open (line 165). The model
  represents a status the body leaves out as `None`, which becomes Open.

## Model

| member | source | states |
|---|---|---|
| Data.Db.constructor | Context/AppDbContext.cs:8-17 | an empty store is consistent: every table is empty and all id counters start above every key |
| Data.Largest | Controllers/Web/PaymentController.cs:177-180 | the newest payment of an order is the one with the largest id: the result is in the set and bounds every member |
| Money.Truncate | Controllers/Web/PaymentController.cs:87 | the `(long)` cast truncates toward zero: the result is within one of the value, on the side of zero |
| Money.MinorUnitsExact | Controllers/Web/PaymentController.cs:87 | a price with at most two decimals converts to exactly its number of kopecks |
| Money.MinorUnitsNeverRoundsUp | Controllers/Web/PaymentController.cs:87 | a non-negative price never rounds up: minor units ≤ price·100 < minor units + 1 |
| Money.MinorUnitsExamples | Controllers/Web/PaymentController.cs:87 | 19.99 becomes 1999 and 10.999 becomes 1099 (truncation, not half-up rounding) |
| Domain.RoundHalfEven | Dto/Bids/CreateBidDto.cs:8 | the integer `Convert.ToInt32` compares is within one half of the value, and a tie goes to the even neighbour |
| Domain.PositiveRangeBounds | Dto/Bids/CreateBidDto.cs:8-9 | `[Range(1, int.MaxValue)]` on a decimal accepts exactly the values above 0.5 and below int.MaxValue + 0.5 |
| Domain.OverflowBounds | Dto/Services/UpdateServiceDto.cs:13-14 | validating a decimal against `[Range(1, int.MaxValue)]` throws exactly for values at or above int.MaxValue + 0.5 or below int.MinValue - 0.5 |
| Domain.RoundingExamples | Dto/Bids/CreateBidDto.cs:8 | 0.5 rounds to 0 and is refused while 0.6 passes; 1.5 and 2.5 both round to 2; int.MaxValue + 0.5 throws and int.MaxValue + 0.4 does not |
| Money.DtoPriceFitsInLong | Dto/Services/UpdateServiceDto.cs:12-14 | any price the service forms accept (it rounds to 1..int.MaxValue, so it is below int.MaxValue + 0.5) fits in a 64-bit amount once converted to kopecks |
| Money.NatToString | Controllers/Web/PaymentController.cs:110 | `ToString()` of an id is a non-empty run of decimal digits |
| Money.ParseNatToString | Controllers/Web/PaymentController.cs:110 | reading the digits back gives the same number |
| Money.IntToStringRoundTrip | Controllers/Web/PaymentController.cs:110 | every id, negative included, reads back from its text |
| Money.IntToStringInjective | Controllers/Web/PaymentController.cs:110 | two payments with the same metadata text have the same id |
| StripeProvider.SessionStatus | Services/StripePaymentProvider.cs:53-65 | Succeeded iff the session is "paid"; otherwise Canceled iff it is "expired", else Pending; the payment intent id is passed through |
| StripeProvider.SessionStatusNeverFailedOrUnknown | Services/StripePaymentProvider.cs:59-64 | the Stripe mapping never reports Failed or Unknown |
| StripeProvider.SessionOptionsFor | Services/StripePaymentProvider.cs:15-41 | the checkout options carry one line item of quantity 1 priced at the request's amount, and metadata holding only the payment id |
| StripeProvider.SessionOptionsKeepRequest | Services/StripePaymentProvider.cs:15-41 | the request can be read back from the options built for it: nothing of it is lost |
| StripeProvider.MetadataIdentifiesPayment | Services/StripePaymentProvider.cs:37-40 | the session's metadata names exactly the payment it was opened for |
| Payments.CheckoutGuard | Controllers/Web/PaymentController.cs:35-48 | NotFound iff the order is missing, Forbid iff it is someone else's, BadRequest iff it is the caller's but not Accepted; it goes ahead iff the caller's order is Accepted |
| Payments.Create | Controllers/Web/PaymentController.cs:28-59 | the checkout page: the guard's error, ServerError when the order's service is gone, otherwise the order id, the service's title and its price in roubles |
| Payments.Description | Controllers/Web/PaymentController.cs:106 | the description starts with the fixed prefix, ends with two spaces and the service title, and the order id reads back from between them |
| Payments.StartFailure | Controllers/Web/PaymentController.cs:66-92 | the guard's error first; otherwise ServerError iff the order's service is missing, its price in kopecks overflows a 64-bit long, or the signed-in user cannot be loaded |
| Payments.Start | Controllers/Web/PaymentController.cs:64-120 | on any failure nothing changes; otherwise exactly one new Pending payment in roubles for the caller, amount in kopecks, created at the first clock reading, then its session id set from the provider's session and its update time from the second reading |
| Payments.StartedSessionIdentifiesPayment | Controllers/Web/PaymentController.cs:102-111 | the checkout charges exactly the stored amount and its metadata names the stored payment |
| Payments.Settle | Controllers/Web/PaymentController.cs:140-166 | the provider's status is copied for Succeeded, Canceled and Failed, kept otherwise; the payment intent id and update time are always set; no other field changes |
| Payments.AdvanceOrder | Controllers/Web/PaymentController.cs:149-153 | only an Accepted order becomes Paid; any other order, and every other row, is untouched |
| Payments.SuccessEffect | Controllers/Web/PaymentController.cs:140-168 | the return from checkout changes the settled payment and, only on success, the order it pays; no other table |
| Payments.Success | Controllers/Web/PaymentController.cs:125-170 | BadRequest for a null, empty or white-space session id (Unicode white space), NotFound for an unknown one, both without change; otherwise the state becomes SuccessEffect for that payment |
| Payments.SuccessIdempotent | Controllers/Web/PaymentController.cs:140-166 | returning from the same checkout twice with the same answer is the same as once |
| Payments.SuccessOrderTransitions | Controllers/Web/PaymentController.cs:149-153 | the only order change success can make is the paid order moving from Accepted to Paid |
| Payments.PaidSessionSettles | Services/StripePaymentProvider.cs:59-64 | a session Stripe reports "paid" makes the payment Succeeded and its Accepted order Paid |
| Payments.CancelPending | Controllers/Web/PaymentController.cs:182-187 | only a Pending payment is cancelled, with the update time set; any other payment is unchanged |
| Payments.Cancel | Controllers/Web/PaymentController.cs:175-190 | nothing is found iff the order has no payment, and then nothing changes; otherwise the payment with the largest id of that order is the one returned and passed through CancelPending |
| Payments.CancelAfterSuccessKeepsPayment | Controllers/Web/PaymentController.cs:182 | a cancel after a settled success does not undo it |
| Payments.CancelIdempotent | Controllers/Web/PaymentController.cs:182-187 | cancelling twice is cancelling once |
| Payments.My | Controllers/Web/PaymentController.cs:193-204 | exactly the caller's payments, each once, newest first |
| WebOrders.Create | Controllers/Web/OrderController.cs:56-94 | an invalid form or an active (Pending or Accepted) order of the caller on the service is refused, a missing user is Unauthorized, all without change; otherwise exactly one new Pending order |
| WebOrders.InactiveOrdersDoNotBlock | Controllers/Web/OrderController.cs:64-73 | Rejected, Completed and Paid orders never block a new order |
| WebOrders.CreatedOrderBlocksAnother | Controllers/Web/OrderController.cs:64-91 | a created order blocks a second one on the same service by the same client |
| WebOrders.EditForm | Controllers/Web/OrderController.cs:97-114 | NotFound unless the caller placed the order; otherwise its comment and duration |
| WebOrders.Edit | Controllers/Web/OrderController.cs:119-139 | an invalid form or a foreign or missing order is refused without change; otherwise only comment and duration of that order change |
| WebOrders.Delete | Controllers/Web/OrderController.cs:144-158 | only the caller's order is removed, and only that row |
| WebOrders.MyOrders | Controllers/Web/OrderController.cs:161-171 | exactly the caller's orders, each once, newest first |
| WebOrders.CompleteOrder | Controllers/Web/OrderController.cs:175-197 | NotFound or Forbid without change; the client's order becomes Completed from any status |
| WebServices.Index | Controllers/Web/ServiceController.cs:26-66 | exactly the services matching search, parsed status and inclusive price bounds, each once, sorted by price when asked, otherwise newest first |
| WebServices.EditForm | Controllers/Web/ServiceController.cs:118-137 | NotFound unless the caller offers the service; otherwise its editable fields |
| WebServices.Edit | Controllers/Web/ServiceController.cs:142-164 | ServerError when the price does not convert to an int; an invalid form (blank title or description, a price that does not round to 1..int.MaxValue) or a service the caller does not offer is refused; all without change; otherwise title, description, price and status are overwritten, any status allowed |
| WebServices.Delete | Controllers/Web/ServiceController.cs:169-183 | only the caller's service is removed, and only that row |
| WebServices.MyServices | Controllers/Web/ServiceController.cs:186-195 | exactly the caller's services, each once, newest first |
| WebServices.RejectOrdersOf | Controllers/Web/ServiceController.cs:225-228 | every order of the service except the kept one becomes Rejected; orders of other services are untouched |
| WebServices.RejectEach | Controllers/Web/ServiceController.cs:225-228 | the loop over the service's orders leaves the orders table equal to RejectOrdersOf and the rest of the store unchanged |
| WebServices.AcceptFailure | Controllers/Web/ServiceController.cs:206-220 | NotFound for a missing service or an order not on it, Forbid for someone else's service; it goes ahead iff the caller's service has that order |
| WebServices.AcceptEffect | Controllers/Web/ServiceController.cs:222-230 | the chosen order becomes Accepted, its client the service's selected client, every other order of the service Rejected |
| WebServices.AcceptOrder | Controllers/Web/ServiceController.cs:200-234 | refuses without change as AcceptFailure says; otherwise the state becomes AcceptEffect |
| WebServices.AcceptLeavesOneAccepted | Controllers/Web/ServiceController.cs:222-228 | after an accept the chosen order is the one and only Accepted order of its service |
| WebServices.AcceptKeepsOtherServices | Controllers/Web/ServiceController.cs:225-228 | an accept does not touch orders of other services |
| WebServices.AcceptIdempotent | Controllers/Web/ServiceController.cs:222-228 | accepting the same order again changes nothing |
| WebServices.RejectOrder | Controllers/Web/ServiceController.cs:239-260 | NotFound for a missing order, ServerError for an order whose service is gone, Forbid for a service the caller does not offer, all without change; otherwise only that order becomes Rejected |
| WebServices.CompleteOrder | Controllers/Web/ServiceController.cs:264-286 | the same rule as the order page: the client's order becomes Completed |
| WebServices.CancelEffect | Controllers/Web/ServiceController.cs:298-306 | the service becomes Unavailable and every order of it Rejected; nothing else changes |
| WebServices.CancelService | Controllers/Web/ServiceController.cs:290-313 | NotFound without change unless the caller offers the service; otherwise the state becomes CancelEffect, from any status |
| WebServices.CancelRejectsEveryOrder | Controllers/Web/ServiceController.cs:303-306 | after a withdrawal no order of the service is Pending, Accepted, Completed or Paid |
| WebServices.ResumeService | Controllers/Web/ServiceController.cs:317-340 | NotFound unless the caller offers it, BadRequest unless it is Unavailable, both without change; otherwise only its status becomes Available |
| WebServices.CancelThenResume | Controllers/Web/ServiceController.cs:290-340 | withdrawing then resuming makes the service Available again but leaves its orders Rejected |
| WebBids.NewBid | Controllers/Web/BidController.cs:77-88 | the new bid is Pending, by the caller, with the form's project, amount, comment and duration |
| WebBids.Create | Controllers/Web/BidController.cs:55-111 | ServerError when the amount does not convert to an int; an invalid form (amount not rounding to 1..int.MaxValue, duration outside 1..365) or an earlier bid of the caller on the project is refused, a missing user is Unauthorized; all without change; otherwise exactly one new bid |
| WebBids.BidBlocksReapplying | Controllers/Web/BidController.cs:68-75 | once a bid is in, whatever its status becomes, the freelancer cannot apply to that project again |
| WebBids.EditForm | Controllers/Web/BidController.cs:114-132 | NotFound unless the caller made the bid; otherwise its amount, comment and duration |
| WebBids.EditBid | Controllers/Web/BidController.cs:152-154 | an edit writes amount, comment and duration; project, freelancer, status and creation time stay |
| WebBids.EditBidIdempotent | Controllers/Web/BidController.cs:152-154 | editing twice with the same form is editing once |
| WebBids.Edit | Controllers/Web/BidController.cs:137-158 | an invalid form or a foreign or missing bid is refused without change; otherwise only that bid is edited |
| WebBids.Delete | Controllers/Web/BidController.cs:163-177 | only the caller's bid is removed, and only that row |
| WebBids.DeleteAllowsReapplying | Controllers/Web/BidController.cs:68-75 | withdrawing one's only bid on a project allows applying again |
| WebBids.MyBids | Controllers/Web/BidController.cs:180-190 | exactly the caller's bids, each once, newest first |
| ApiBids.ListBids | Controllers/Api/BidController.cs:23-41 | exactly the bids matching the optional project and freelancer filters, each once; with neither filter, every bid |
| ApiBids.GetBid | Controllers/Api/BidController.cs:44-56 | the bid with that id, or BadRequest when there is none |
| ApiBids.CreateBid | Controllers/Api/BidController.cs:60-103 | ServerError when the amount does not convert to an int, BadRequest for an invalid body, ServerError without a user id, NotFound for a missing project, Conflict for any earlier bid of the caller on it, all without change; otherwise exactly one new Pending bid |
| ApiBids.OwnerGate | Controllers/Api/BidController.cs:110-123 | NotFound iff the bid is missing, Forbid iff it is someone else's, and no error iff the caller owns it |
| ApiBids.UpdateBid | Controllers/Api/BidController.cs:107-143 | BadRequest for an invalid body, then the gate's error, all without change; otherwise that bid is edited and returned |
| ApiBids.DeleteBid | Controllers/Api/BidController.cs:147-166 | the gate's error without change; otherwise only that bid is removed |
| ApiOrders.ListOrders | Controllers/Api/OrderController.cs:24-43 | exactly the orders matching the optional service and client filters, each once |
| ApiOrders.GetOrder | Controllers/Api/OrderController.cs:46-59 | the order with that id, or BadRequest when there is none |
| ApiOrders.NewOrder | Controllers/Api/OrderController.cs:85-92 | the new order is Pending, by the caller, with the body's service, comment and duration |
| ApiOrders.CreateOrder | Controllers/Api/OrderController.cs:63-105 | BadRequest for an invalid body, ServerError without a user id, NotFound for a missing service, Conflict for any earlier order of the caller on it, all without change; otherwise exactly one new order |
| ApiOrders.ApiCheckCoversWebCheck | Controllers/Api/OrderController.cs:77-84 | every order the web page refuses as a duplicate is refused by the API too |
| ApiOrders.ApiCheckStricterThanWeb | Controllers/Api/OrderController.cs:77-84 | when the caller has ordered the service before, the web page accepts a new order exactly when every earlier one is Rejected, Completed or Paid, while the API refuses it in every case |
| ApiOrders.OwnerGate | Controllers/Api/OrderController.cs:112-126 | NotFound iff the order is missing, Forbid iff it is someone else's, and no error iff the caller placed it |
| ApiOrders.UpdateOrder | Controllers/Api/OrderController.cs:109-145 | BadRequest for an invalid body, then the gate's error, all without change; otherwise comment and duration of that order are overwritten and it is returned |
| ApiOrders.DeleteOrder | Controllers/Api/OrderController.cs:149-168 | the gate's error without change; otherwise only that order is removed |
| Listing.Filter | Controllers/Api/BidController.cs:27-35 | a row is kept iff it matches; each row keeps its multiplicity |
| Listing.Insert | Controllers/Web/ProjectController.cs:41-46 | inserting into a sorted list keeps it sorted and adds exactly that row |
| Listing.SortBy | Controllers/Web/ProjectController.cs:41-46 | the result is sorted by the key and a permutation of the input |
| Listing.Query | Controllers/Web/ProjectController.cs:21-48 | the result is a sorted permutation of the matching rows |
| Listing.ProjectsQuery | Controllers/Web/ProjectController.cs:21-48 | exactly the matching projects, each as often as in the input (so no id repeats when none repeats in the input), by budget when asked, otherwise newest first |
| Listing.ServicesQuery | Controllers/Web/ServiceController.cs:28-57 | exactly the matching services, each as often as in the input (so no id repeats when none repeats in the input), by price when asked, otherwise newest first |
| Listing.UnparsedStatusIgnored | Controllers/Web/ProjectController.cs:26-29 | a status text that does not parse filters nothing |
| Listing.BudgetBoundsInclusive | Controllers/Web/ProjectController.cs:31-39 | a project whose budget equals a bound is listed |
| Listing.ServicesWithParsedStatus | Controllers/Web/ServiceController.cs:35-38 | with a status that parses, only services in that status are listed |
| WebProjects.Index | Controllers/Web/ProjectController.cs:17-57 | exactly the matching projects, each once, by budget when asked, otherwise newest first |
| ApiProjects.ListProjects | Controllers/Api/ProjectController.cs:22-59 | the same listing as the web catalogue: exactly the matching projects, each once, in the requested order |
| ApiProjects.GetProject | Controllers/Api/ProjectController.cs:62-71 | the project with that id, or BadRequest when there is none |
| ApiProjects.NewProject | Controllers/Api/ProjectController.cs:80-88 | the new project belongs to the caller, with the body's fields and the status asked for, otherwise Open |
| ApiProjects.CreateProject | Controllers/Api/ProjectController.cs:75-96 | BadRequest for a blank title or description, then ServerError when there is no user id, both without change; otherwise exactly one new project |
| ApiProjects.OwnerGate | Controllers/Api/ProjectController.cs:103-113 | NotFound iff the project is missing, Forbid iff it is someone else's, and no error iff the caller owns it |
| ApiProjects.UpdatedProject | Controllers/Api/ProjectController.cs:115-118 | an update writes title, description, budget and status; client and creation time stay |
| ApiProjects.UpdateProject | Controllers/Api/ProjectController.cs:100-134 | BadRequest for a blank title or description, then the gate's error, both without change; otherwise that project is overwritten and returned |
| ApiProjects.DeleteProject | Controllers/Api/ProjectController.cs:138-157 | the gate's error without change; otherwise only that project is removed |
| ApiServices.ListServices | Controllers/Api/ServiceController.cs:24-61 | the same listing as the web catalogue: exactly the matching services, each once, in the requested order |
| ApiServices.GetService | Controllers/Api/ServiceController.cs:64-73 | the service with that id, or BadRequest when there is none |
| ApiServices.NewService | Controllers/Api/ServiceController.cs:82-90 | the new service belongs to the caller, with the body's fields and no selected client |
| ApiServices.CreateService | Controllers/Api/ServiceController.cs:77-98 | BadRequest for an invalid body, ServerError without a user id, both without change; otherwise exactly one new service |
| ApiServices.OwnerGate | Controllers/Api/ServiceController.cs:105-115 | NotFound iff the service is missing, Forbid iff it is someone else's, and no error iff the caller offers it |
| ApiServices.UpdateService | Controllers/Api/ServiceController.cs:102-136 | ServerError when the price does not convert to an int, then BadRequest for an invalid body, then the gate's error, all without change; otherwise title, description, price and status are overwritten and the service returned |
| ApiServices.DeleteService | Controllers/Api/ServiceController.cs:140-159 | the gate's error without change; otherwise only that service is removed |
| AdminProjects.Open | Areas/Identity/Pages/Admin/Projects/Index.cshtml.cs:29-37 | NotFound without change for a missing project; otherwise only its status becomes Open, from any status |
| AdminProjects.Close | Areas/Identity/Pages/Admin/Projects/Index.cshtml.cs:39-47 | NotFound without change for a missing project; otherwise only its status becomes Cancelled, bids untouched |
| AdminProjects.Delete | Areas/Identity/Pages/Admin/Projects/Index.cshtml.cs:49-57 | NotFound without change for a missing project; otherwise exactly that project is removed |
| AdminServices.CloseEffect | Areas/Identity/Pages/Admin/Services/Index.cshtml.cs:44 | the administrator's close makes the service Unavailable and leaves the orders alone |
| AdminServices.Open | Areas/Identity/Pages/Admin/Services/Index.cshtml.cs:29-37 | NotFound without change for a missing service; otherwise only its status becomes Available |
| AdminServices.Close | Areas/Identity/Pages/Admin/Services/Index.cshtml.cs:39-47 | NotFound without change for a missing service; otherwise the state becomes CloseEffect |
| AdminServices.CloseDiffersFromCancel | Areas/Identity/Pages/Admin/Services/Index.cshtml.cs:44 | the administrator's close sets the same service row as the freelancer's withdrawal, and has the same whole effect iff every order of the service is already Rejected |
| AdminServices.Delete | Areas/Identity/Pages/Admin/Services/Index.cshtml.cs:49-57 | NotFound without change for a missing service; otherwise exactly that service is removed |
| Chats.OtherParticipantIsTheOtherOne | Controllers/Web/ChatController.cs:36 | between two distinct people, the other participant is in the chat and is not the caller |
| Chats.MarkReadEffect | Controllers/Web/ChatController.cs:65-68 | opening keeps every message and its sender, text and time; no message is left unread for the caller; the caller's own messages are untouched |
| Chats.MarkReadIdempotent | Controllers/Web/ChatController.cs:65-68 | opening a chat twice marks nothing more |
| Chats.OpenedChatHasNoUnread | Controllers/Web/ChatController.cs:43-68 | after the caller opens a chat, its unread flag is off for them |
| Chats.OpeningKeepsOthersUnread | Controllers/Web/ChatController.cs:65-68 | the other participant's unread messages stay unread |
| Chats.ChatsOf | Controllers/Web/ChatController.cs:27-30 | exactly the chats the caller is a participant in, each once |
| Chats.Index | Controllers/Web/ChatController.cs:23-48 | ServerError iff one of the caller's chats names a user the identity store does not know; otherwise exactly one line per chat of the caller, no chat twice, with the other participant's name and the unread flag |
| Chats.Shown | Controllers/Web/ChatController.cs:52-66 | the chat the page shows: its messages sorted by the time they were sent, a permutation of the stored messages after marking, none unread for the caller |
| Chats.Open | Controllers/Web/ChatController.cs:50-75 | NotFound without change for a missing chat or one the caller is not in; otherwise the stored messages from the other party are marked read, and the chat is returned as Shown (sorted by send time), or ServerError when the other participant is unknown |
| Chats.UnreadChatsCount | Controllers/Web/ChatController.cs:78-89 | Unauthorized iff there is no user; otherwise a count that is positive iff some chat of the caller has a message unread for them |
| Chats.BadgeCountsUnread | Controllers/Web/ChatController.cs:83-86 | the set the badge counts is non-empty iff some chat of the caller has a message unread for them |
| Chats.OpeningClearsFromBadge | Controllers/Web/ChatController.cs:65-86 | opening a chat takes exactly that chat off the badge, lowering the count by one if it was unread |
| Profiles.StatusName | Controllers/Web/PublicProfileController.cs:47 | the status text shown on a profile parses back to the same status |
| Profiles.OrdersCountAfterInsert | Controllers/Web/PublicProfileController.cs:48 | a new order raises its own service's order count by one and no other's |
| Profiles.Public | Controllers/Web/PublicProfileController.cs:24-61 | NotFound iff the id is empty or unknown; otherwise the user's name (or the placeholder), their "about me" text (or empty) and exactly their services, each once, with status and order count |
| Profiles.EnsureProfile | Controllers/Web/PublicProfileController.cs:68-83 | the user's existing profile is kept; an empty one is added only if absent; no other profile changes |
| Profiles.EnsureProfileIdempotent | Controllers/Web/PublicProfileController.cs:68-83 | opening "my profile" a second time creates nothing |
| Profiles.My | Controllers/Web/PublicProfileController.cs:66-86 | ServerError without change when there is no user; otherwise the profiles become EnsureProfile and the user's id is returned |
| Profiles.FormOf | Controllers/Web/PublicProfileController.cs:97-100 | the form shows the stored profile, or an empty one |
| Profiles.EditForm | Controllers/Web/PublicProfileController.cs:89-101 | Unauthorized when there is no user; otherwise the form, and the store is never written |
| Profiles.Edit | Controllers/Web/PublicProfileController.cs:104-135 | Unauthorized without change when there is no user; otherwise the user's profile holds the new text, added if absent; no other profile changes |
| Profiles.EditIsUpsert | Controllers/Web/PublicProfileController.cs:115-131 | after an edit the user has exactly one profile with the new text, whether or not one existed |
| Analytics.SumOfRemove | Areas/Identity/Pages/Admin/Analytics/Index.cshtml.cs:52-57 | a sum over a table does not depend on the order rows are added in |
| Analytics.SumOfZero | Areas/Identity/Pages/Admin/Analytics/Index.cshtml.cs:54-57 | a sum over rows that all contribute nothing is 0, like `?? 0` over no rows |
| Analytics.EmptyMonthHasNoRevenue | Areas/Identity/Pages/Admin/Analytics/Index.cshtml.cs:52-59 | a month with no completed order and no accepted bid has revenue 0 |
| Analytics.OtherStatusesAddNothing | Areas/Identity/Pages/Admin/Analytics/Index.cshtml.cs:53-56 | an order not Completed or a bid not Accepted adds nothing to any month |
| Analytics.CompletingAddsPrice | Areas/Identity/Pages/Admin/Analytics/Index.cshtml.cs:52-54 | completing an order adds its service's price to the month it was created in |
| Analytics.Dashboard.constructor | Areas/Identity/Pages/Admin/Analytics/Index.cshtml.cs:29-31 | three fresh arrays of length 6, projects per month all 0 |
| Analytics.Dashboard.Load | Areas/Identity/Pages/Admin/Analytics/Index.cshtml.cs:33-61 | the four counts equal the table sizes; the six months are consecutive and the last is the current month; each month's revenue is the completed orders' prices plus the accepted bids' amounts of that month; projects per month stay 0 |

## Left out

- Payments.Success: which payment is picked when two share one session id is not modelled. The model picks some payment with that id, while the database returns the first row it finds.
- Payments.Start: the provider call is a parameter. The clock is read twice: `now` when the row is built (the source reads it separately for CreatedAt and UpdatedAt, a tick apart at most) and `later` when the session id is saved. A failure of the provider after the first save, which leaves the Pending payment without a session, is not modelled.
- Chats.Open: the source looks up the other participant before it checks that the caller is in the chat. That lookup has no effect on the store, so the model does it after the check.
- Chats.Index: the list is built in the order the chats are enumerated; the query orders neither the chats nor their messages, and neither does the model.
- Chats: the file upload action (Controllers/Web/ChatController.cs:93-127) writes to the file system and is not modelled. The SignalR hub (Hubs/ChatHub.cs), which saves and broadcasts messages, is not modelled either.
- Profiles.Public: a user with no user name shows the placeholder name; an empty but present user name is shown as it is, as the source does.
- Analytics.Dashboard.Load: the month of a timestamp is a parameter `monthOf`, counted in months since an epoch. The Russian month labels and the user and role counts (lines 35-37, which need the identity tables) are not modelled.
- Analytics: revenue counts only Completed orders, as the source does. A Paid order is not revenue until it is completed.
- WebBids.Edit, ApiBids.UpdateBid, ApiServices.CreateService: the validation rules of `UpdateBidDto` and `CreateServiceDto` are not part of this model; a `modelValid` flag stands for their outcome.
- Listing.ProjectsQuery, Listing.ServicesQuery, WebProjects.Index, WebServices.Index, ApiProjects.ListProjects, ApiServices.ListServices: `Enum.TryParse<TEnum>(status, out …)` is case-sensitive, as the model is, but it also accepts numeric text (even an undefined value such as "7"), comma-separated names, and names with white space around them (" Open "). The model parses only the exact member names, so it treats those texts as unparsed and filters nothing.
- Listing.ProjectsQuery, Listing.ServicesQuery, WebProjects.Index, WebServices.Index, ApiProjects.ListProjects, ApiServices.ListServices: the search is the ordinary, case-sensitive substring test; a database collation that folds case when it evaluates `Contains` is not modelled.
- Cascade deletes: AppDbContext configures no delete behaviour, so EF Core's convention applies: a required foreign key (Bid.ProjectId, Order.ServiceId, Payment.OrderId) cascades, and deleting a project, service or order also deletes the rows that point at it. That cascade is not modelled: each delete action removes only its own row.
- ApiProjects.CreateProject, ApiProjects.UpdateProject: a JSON null title or description is represented by the empty string; the implicit `[Required]` refuses both alike.
- The web `Create` actions of projects and services, the project lifecycle actions the tests call, and the admin Details, Users and Bids/Orders pages are not part of this model.
- Notification e-mails (Controllers/Web/BidController.cs:90-107), authentication, seeding and migrations are not modelled; they are I/O or setup.
- WebOrders.Create: the source reads the service's orders, and each order's client, through navigation properties the query does not load explicitly. The model reads the whole orders table, as if they were loaded.
- ApiBids.UpdateBid, ApiBids.DeleteBid, ApiOrders.UpdateOrder, ApiOrders.DeleteOrder, ApiProjects.UpdateProject, ApiProjects.DeleteProject, ApiServices.UpdateService, ApiServices.DeleteService: the caller id is always present in the model. A missing id owns no row, so the source answers Forbid for any existing row, just as it does for an id that owns none.
- ApiBids.UpdateBid, ApiOrders.UpdateOrder, ApiProjects.UpdateProject, ApiServices.UpdateService: the retry after a concurrent deletion (`DbUpdateConcurrencyException`) is not modelled, because every action is atomic.
- Concurrency: every action is one atomic step; races between the duplicate checks and the inserts are not modelled.
- Redirect targets, `TempData` messages and view names are presentation. Only the outcome code and the store are modelled.
