# Domain marketplace: a Dafny model of its page logic and mock services

The marketplace is a React single-page application. Sellers submit domain
names for sale, admins approve or reject them, buyers browse, filter and buy
them, and an assistant suggests names. Almost all of it is markup. The logic
underneath is modelled here:

- **Browse query pipeline** (`BrowsePage.jsx`):
  - the effect filters the loaded listings by every non-empty field of the filter record;
  - it sorts them by one of five keys;
  - the page shows nine per page;
  - the page-number strip shows buttons for the first page, the last page and
    the pages within one of the current page. An ellipsis appears in place of a
    page exactly two away from the current one that is in range and has no button,
    so there is none, one or two of them.
- **Three in-memory record stores** (`domainService.js`, `purchaseService.js`,
  `founderPassService.js`). Each is a module-level array keyed by `Id`, with
  `getAll`, `getById`, `create` (`Math.max` of the Ids plus one, plus forced
  fields), `update` (spread-merge plus `updatedAt`) and `delete` (splice).
- **The two forms**:
  - the seller's `validateForm`, with its price check and the submitted `domainData` record;
  - the buyer's `validateForm`, with the pattern `/\S+@\S+\.\S+/` and the `purchaseData` record.
- **Status helpers and counters**:
  - `formatStatus` (kebab-case to Title Case);
  - the transfer progress width;
  - the admin's approval handler, which drops the domain from the pending list;
  - the counts and the revenue sum;
  - removing one listed extension from the assistant's suggestions before browsing;
  - the generate button's disabled condition.

JavaScript's value semantics are written out in two modules:
- `JsStrings`:
  - `parseInt`: leading white space, an optional sign, an optional `0x`, then digits; NaN otherwise;
  - `isNaN` on strings, over the full numeric-literal grammar;
  - `toLowerCase`/`toUpperCase` on ASCII;
  - `includes`;
  - a lexicographic `localeCompare`.
- `JsValues`:
  - records are maps from property name to value, and object spread is map union;
  - `===` (never true for NaN);
  - truthiness;
  - `Math.max` over the Ids, including the `-Infinity` of an empty store.

React state becomes a class per page, with `modifies` on the event handlers.
A service's array becomes the `records` sequence of a `Store` object. Each
`await`ed call is one atomic method call. The clock reading
`new Date().toISOString()` is the parameter `now`.

Where the code and the intended behaviour differ, the model follows the code:
- `totalPages` is 0, not 1, for an empty result.
- A non-empty price or length bound that `parseInt` cannot read compares
  against NaN and hides every listing, instead of being ignored.
- A seller's price of blanks passes validation: `isNaN(" ")` is false and
  `parseInt(" ") <= 0` is false. It is then submitted as NaN.
- `create` on an emptied store gives the Id `-Infinity`, and a second
  `create` repeats that Id.

## Model

| member | source | states |
|---|---|---|
| BrowseQuery.FilterDomains | src/components/pages/BrowsePage.jsx:52-84 | the copy narrowed by one `filter` per non-empty field is exactly the listings accepted by every active field test, in loaded order |
| BrowseQuery.Matching | src/components/pages/BrowsePage.jsx:52-84 | the reference definition of the filter: the loaded listings, filtered once by the conjunction of the seven field tests. Its contract says it is no longer than the input and each kept listing is accepted; `MatchingMembership`, `MatchingIsSubsequence` and `MatchingIsIntersection` state its exact contents |
| BrowseQuery.PipelineIsMatching | src/components/pages/BrowsePage.jsx:52-84 | the seven conditional filters applied in turn equal one filter by the conjunction of the active tests |
| BrowseQuery.MatchingIsSubsequence | src/components/pages/BrowsePage.jsx:52-84 | the filtered list is a subsequence of the loaded listings: nothing added, nothing reordered |
| BrowseQuery.MatchingMembership | src/components/pages/BrowsePage.jsx:55-84 | a listing is kept iff it was loaded and passes every non-empty field: lowercased search text in the lowercased name or description, category and extension equal, price and name length within the parsed bounds |
| BrowseQuery.MatchingIsIntersection | src/components/pages/BrowsePage.jsx:55-84 | the combined filter keeps exactly what every single-field filter keeps |
| BrowseQuery.AcceptsOnlyField | src/components/pages/BrowsePage.jsx:55-84 | a filter record with only one field set applies that field's test and no other |
| BrowseQuery.NoFiltersKeepAll | src/components/pages/BrowsePage.jsx:55-84 | with every field empty the filtered list is the loaded list |
| BrowseQuery.UnparsableBoundHidesAll | src/components/pages/BrowsePage.jsx:70-84 | a non-empty bound that `parseInt` reads as NaN makes the result empty |
| BrowseQuery.MinPriceAbcHidesAll | src/components/pages/BrowsePage.jsx:70-72 | a minimum price of "abc" hides every listing |
| BrowseQuery.ParseSixty | src/components/pages/BrowsePage.jsx:71 | `parseInt("60")` is 60 |
| BrowseQuery.MinPriceScenario | src/components/pages/BrowsePage.jsx:70-72 | with a minimum price of 60, apple.com at 100 stays and banana.io at 50 goes |
| BrowseSort.CompareAntisymmetric | src/components/pages/BrowsePage.jsx:87-103 | each comparator is antisymmetric: a > b exactly when b < a, ties both ways |
| BrowseSort.CompareTransitive | src/components/pages/BrowsePage.jsx:87-103 | each comparator's "not greater" is transitive |
| BrowseSort.SortPermutes | src/components/pages/BrowsePage.jsx:87-103 | sorting keeps every listing as often as before (multiset equality) |
| BrowseSort.SortOrdered | src/components/pages/BrowsePage.jsx:87-103 | after sorting no listing is followed by one that compares less |
| BrowseSort.SortStable | src/components/pages/BrowsePage.jsx:87-103 | listings that compare equal keep their relative order |
| BrowseSort.SortByProperties | src/components/pages/BrowsePage.jsx:87-103 | the switch's result is a permutation, ordered for the five keys, stable, and the input itself for any other `sortBy` |
| BrowseSort.SortBy | src/components/pages/BrowsePage.jsx:87-103 | the switch on `sortBy`: a stable insertion sort under the key's comparator for the five keys, the list untouched otherwise. `SortByProperties` states that it is an ordered, stable permutation |
| BrowseSort.PriceLowScenario | src/components/pages/BrowsePage.jsx:94-96 | "price-low" puts a listing at 50 before one at 100 |
| BrowsePage.InitialFilters | src/components/pages/BrowsePage.jsx:23-32 | the filter record starts with the address's search text, every other field empty and "newest" |
| BrowsePage.WithFieldChangesOnlyKey | src/components/pages/BrowsePage.jsx:109-111 | `handleFilterChange` gives the named field the value and leaves the other seven as they were |
| BrowsePage.BrowseView.RunEffect | src/components/pages/BrowsePage.jsx:51-107 | the effect sets the shown list to the filtered then sorted listings and returns to page 1, touching nothing else |
| BrowsePage.BrowseView.LoadSucceeded | src/components/pages/BrowsePage.jsx:34-49 | loaded listings replace the old ones, the effect reruns, the page is 1 |
| BrowsePage.BrowseView.LoadFailed | src/components/pages/BrowsePage.jsx:40-41 | a failed load keeps the message and changes nothing else |
| BrowsePage.BrowseView.HandleFilterChange | src/components/pages/BrowsePage.jsx:109-111 | one field changes, the shown list is recomputed, the page is 1 |
| BrowsePage.BrowseView.HandleSearch | src/components/pages/BrowsePage.jsx:113-116 | only the search text changes, the shown list is recomputed, the page is 1 |
| BrowsePage.BrowseView.HandleClearFilters | src/components/pages/BrowsePage.jsx:118-130 | every field is emptied with "newest" as the key, and the shown list is all listings newest first |
| BrowsePage.BrowseView.HandlePageChange | src/components/pages/BrowsePage.jsx:137-140 | only the page number changes |
| BrowsePage.BrowseView.Visible | src/components/pages/BrowsePage.jsx:134-135 | `paginatedDomains` holds at most nine listings. On a page number of at least 1, its i-th entry is the filtered list's entry at `(currentPage - 1) * 9 + i`, and it is non-empty exactly when the page is at most `totalPages` |
| BrowsePage.ShownMembership | src/components/pages/BrowsePage.jsx:52-105 | a listing is shown exactly when it passes the filter: sorting neither adds nor drops |
| BrowsePagination.TotalPages | src/components/pages/BrowsePage.jsx:133 | `Math.ceil(n / 9)`: 0 exactly for no listings, else the least t with n <= 9t |
| BrowsePagination.SliceIndex | src/components/pages/BrowsePage.jsx:135 | `slice` clamps a bound into the list: in range it is kept, past the end it is the length |
| BrowsePagination.PageSliceContents | src/components/pages/BrowsePage.jsx:134-135 | page p shows the listings from (p-1)*9 up to nine later or the end, at most nine, and none exactly when p is past the last page |
| BrowsePagination.PageSlice | src/components/pages/BrowsePage.jsx:134-135 | `slice(startIndex, startIndex + 9)`: at most nine entries, and from page 1 on, entry i is the list's entry at `(page - 1) * 9 + i`. `PageSliceContents` and `PagesCoverAll` state the rest |
| BrowsePagination.PagesCoverAll | src/components/pages/BrowsePage.jsx:133-135 | pages 1 to `totalPages` joined in order are the whole list, each listing once |
| BrowsePagination.ShowingRangeMatchesSlice | src/components/pages/BrowsePage.jsx:186 | the header's from-to range is exactly the positions the page shows |
| BrowsePagination.ShowingRange | src/components/pages/BrowsePage.jsx:186 | the header's "from" and "to": `startIndex + 1` and the smaller of `startIndex + 9` and the count. `ShowingRangeMatchesSlice` states that they bound exactly the positions shown |
| BrowsePagination.TwentyThreeOnPageThree | src/components/pages/BrowsePage.jsx:133-135 | 23 listings: three pages, page 3 shows positions 18 to 22, header "19-23" |
| BrowsePagination.ArrowsStayInRange | src/components/pages/BrowsePage.jsx:229-275 | Previous is enabled off page 1 and Next off the last page; both lead to a page in range, and one is enabled whenever the strip shows |
| BrowsePagination.PreviousEnabled | src/components/pages/BrowsePage.jsx:234 | "Previous" is enabled unless on page 1 (`disabled={currentPage === 1}`); see `ArrowsStayInRange` |
| BrowsePagination.NextEnabled | src/components/pages/BrowsePage.jsx:270 | "Next" is enabled unless on the last page (`disabled={currentPage === totalPages}`); see `ArrowsStayInRange` |
| BrowsePagination.WindowMembership | src/components/pages/BrowsePage.jsx:242-264 | an entry is in the strip exactly when the rule renders it: buttons for page 1, the last page and pages within one of the current page, ellipses for the pages two away that have no button |
| BrowsePagination.Window | src/components/pages/BrowsePage.jsx:242-264 | the strip for pages 1 to `totalPages`, in order, with the nulls dropped. `WindowMembership`, `WindowIncreasing`, `WindowEnds`, `NoAdjacentEllipses` and `NoSilentGap` state its contents and shape |
| BrowsePagination.WindowIncreasing | src/components/pages/BrowsePage.jsx:242-264 | the strip's entries are in strictly increasing page order, so no page appears twice |
| BrowsePagination.NoAdjacentEllipses | src/components/pages/BrowsePage.jsx:242-264 | with the current page in range, two ellipses are never next to each other |
| BrowsePagination.NoSilentGap | src/components/pages/BrowsePage.jsx:242-264 | two buttons next to each other in the strip are consecutive pages |
| BrowsePagination.WindowEnds | src/components/pages/BrowsePage.jsx:242-264 | the strip starts with the button for page 1 and ends with the button for the last page |
| BrowsePagination.TenPagesAtFive | src/components/pages/BrowsePage.jsx:242-264 | ten pages on page 5: 1, …, 4, 5, 6, …, 10 |
| JsStrings.ParseInt | src/components/pages/BrowsePage.jsx:71 | `parseInt` is NaN exactly when no digit follows the white space, sign and radix prefix |
| JsStrings.ParseIntOfNumeral | src/components/pages/SellerPortal.jsx:111 | `parseInt` reads back the numeral of any integer when the text after it is empty or starts with neither a digit nor an `x`/`X` (after a lone "0", an `x` would switch to radix 16, as in `parseInt("0x1A")`, which is 26) |
| JsStrings.ParseIntNoDigits | src/components/pages/BrowsePage.jsx:71 | text containing no digit parses to NaN |
| JsStrings.StringIsNaN | src/components/pages/SellerPortal.jsx:88 | `isNaN` on a string: after trimming white space, the text is neither empty nor a StringNumericLiteral (decimal with fraction and exponent, `Infinity`, or an `0x`/`0o`/`0b` integer). `DigitsAreNumeric` and `BlankPriceAccepted` are its consequences the form relies on |
| JsStrings.DigitsAreNumeric | src/components/pages/SellerPortal.jsx:88 | `isNaN` is false on a non-empty run of decimal digits |
| JsStrings.ToLower | src/components/pages/BrowsePage.jsx:57 | lower-casing keeps the length and maps each character |
| JsStrings.LexCompareAntisymmetric | src/components/pages/BrowsePage.jsx:101 | the name order is antisymmetric |
| JsStrings.LexCompareTransitive | src/components/pages/BrowsePage.jsx:101 | the name order is transitive |
| RecordStore.MaxId | src/services/api/domainService.js:25 | `Math.max` over the Ids: NaN iff some Id is NaN, -Infinity iff all are, otherwise the largest integer Id |
| RecordStore.FindIndex | src/services/api/domainService.js:36 | the first index whose Id is `===` the argument, or -1 exactly when there is none |
| RecordStore.NextId | src/services/api/domainService.js:25 | `Math.max(...ids) + 1`, where NaN and -Infinity absorb the addition. `NextIdExceedsAll` and `CreateOnEmptyStoreRepeatsId` state its behaviour |
| RecordStore.Created | src/services/api/domainService.js:23-28 | the record `create` appends, `{ ...data, Id, <forced fields> }` per service. `CreatedDomainFields`, `CreatedPurchaseFields` and `CreatedPerkFields` state its fields |
| RecordStore.Merged | src/services/api/domainService.js:40-44 | the record `update` stores, `{ ...old, ...patch, updatedAt }`. `MergedFields` states its fields |
| RecordStore.Store.GetAll | src/services/api/domainService.js:7-10 | returns the records and changes nothing |
| RecordStore.Store.GetById | src/services/api/domainService.js:12-19 | the first record with the Id, or the entity's not-found error exactly when none has it |
| RecordStore.Store.Create | src/services/api/domainService.js:21-31 | appends exactly the caller's data overridden by the next Id and the service's forced fields; earlier records unchanged |
| RecordStore.Store.Update | src/services/api/domainService.js:33-47 | a missing Id fails with the store unchanged; otherwise only that slot becomes the old record merged with the patch and `updatedAt` |
| RecordStore.Store.Delete | src/services/api/domainService.js:49-58 | a missing Id fails with the store unchanged; otherwise that record is returned and spliced out, the rest in order |
| RecordStore.CreatedDomainFields | src/services/api/domainService.js:23-28 | a created domain has the next Id, `createdAt` and status "pending-approval" whatever the caller passed, and every other field of the caller |
| RecordStore.CreatedPurchaseFields | src/services/api/purchaseService.js:21-32 | a created purchase is "processing" with transfer "initiated" and `purchaseDate`, overriding the caller, other fields copied |
| RecordStore.CreatedPerkFields | src/services/api/founderPassService.js:21-30 | a created perk gets the next Id and `createdAt`; no status is forced, so the caller's status (if any) is kept with every other field |
| RecordStore.MergedFields | src/services/api/purchaseService.js:40-45 | the merged record takes the patch's fields, `updatedAt`, and the old record's other fields |
| RecordStore.NextIdExceedsAll | src/services/api/domainService.js:25 | with an integer Id and no NaN, the new Id is an integer above every integer Id |
| RecordStore.CreateKeepsIdsUnique | src/services/api/domainService.js:25-29 | `create` keeps Ids unique unless the new Id is -Infinity |
| RecordStore.CreateOnEmptyStoreRepeatsId | src/services/api/domainService.js:25 | from an empty store, two creates give two records whose Ids are both -Infinity |
| RecordStore.DeleteKeepsIdsUnique | src/services/api/domainService.js:56 | deletion keeps Ids unique and the others in order |
| RecordStore.UpdateKeepsIdsUnique | src/services/api/domainService.js:40-44 | an update whose patch sets no Id keeps Ids unique |
| FormInput.ClearError | src/components/pages/SellerPortal.jsx:78-80 | the errors keep their keys, the field's message is blanked if it was showing, every other message is unchanged |
| FormInput.ClearErrorHides | src/components/pages/PurchasePage.jsx:52-54 | after the change no message shows for the field, and one shows for another field exactly as before |
| FormInput.RequireField | src/components/pages/SellerPortal.jsx:86 | a required-field line records its message exactly when the field is falsy |
| SellerPortal.InitialForm | src/components/pages/SellerPortal.jsx:21-29 | the form starts with empty text, ".com" and both boxes unchecked |
| SellerPortal.CheckPrice | src/components/pages/SellerPortal.jsx:87-88 | the price lines record "Price is required" for an empty price, else "Price must be a valid number" when `isNaN` or `parseInt(price) <= 0`, else nothing |
| SellerPortal.SubmitForm.HandleInputChange | src/components/pages/SellerPortal.jsx:76-81 | only the named field takes the value and only its message is blanked |
| SellerPortal.SubmitForm.ValidateForm | src/components/pages/SellerPortal.jsx:83-96 | the stored errors are the checks' messages and the result is true exactly when there are none |
| SellerPortal.SubmitForm.HandleSubmit | src/components/pages/SellerPortal.jsx:98-132 | an invalid form creates nothing and is kept; a valid one appends `domainData` with a fresh Id to the store and resets the form to its initial value |
| SellerPortal.SubmitForm.SubmitValid | src/components/pages/SellerPortal.jsx:106-132 | the `try` block creates the record from the form and then resets it |
| SellerPortal.SellerErrors | src/components/pages/SellerPortal.jsx:83-94 | the errors object, built one checked field after another. Its contract says only the six checked fields can carry a message; `SellerErrorsAt` states each message exactly |
| SellerPortal.DomainData | src/components/pages/SellerPortal.jsx:109-117 | the `domainData` object, whose keys are exactly the seven of the literal. `DomainDataFields` and `DomainDataPrice` state their values |
| SellerPortal.SellerErrorsAt | src/components/pages/SellerPortal.jsx:83-94 | a field has an error exactly when its check fails, with that check's message; extension is never checked |
| SellerPortal.ValidIffNoFieldFails | src/components/pages/SellerPortal.jsx:94-95 | validation succeeds exactly when every field passes |
| SellerPortal.ExtensionNeverValidated | src/components/pages/SellerPortal.jsx:83-94 | the extension never gets an error and changing it changes no error |
| SellerPortal.AcceptedPriceIsPositiveOrNaN | src/components/pages/SellerPortal.jsx:87-88 | an accepted price is non-empty, numeric for `isNaN`, and read by `parseInt` as positive or as NaN |
| SellerPortal.PositivePriceAccepted | src/components/pages/SellerPortal.jsx:88 | the numeral of a positive number passes and parses to that number |
| SellerPortal.NonPositivePriceRefused | src/components/pages/SellerPortal.jsx:88 | the numeral of zero or a negative number is refused as not a valid number |
| SellerPortal.BlankPriceAccepted | src/components/pages/SellerPortal.jsx:87-88 | a price of one blank passes and parses to NaN |
| SellerPortal.DomainDataFields | src/components/pages/SellerPortal.jsx:109-117 | the submitted name is the form's name lower-cased followed by the extension; status "pending-approval", seller "seller-123", the rest copied |
| SellerPortal.DomainDataPrice | src/components/pages/SellerPortal.jsx:111 | a positive numeral as price is submitted as that number |
| PurchasePage.InitialForm | src/components/pages/PurchasePage.jsx:21-29 | the form starts with empty text, payment method "stripe" and terms unchecked |
| PurchasePage.EmailPatternIsRegex | src/components/pages/PurchasePage.jsx:61 | the positional test holds exactly when `/\S+@\S+\.\S+/` matches: a non-blank run, '@', a non-blank run, '.', a non-blank run somewhere in the text |
| PurchasePage.EmailPattern | src/components/pages/PurchasePage.jsx:61 | the e-mail test, positionally: an '@' and a later '.', with non-blank characters between them, just before the '@' and just after the '.'. `EmailPatternIsRegex` proves it equivalent to the regular expression |
| PurchasePage.EmailPatternUnanchored | src/components/pages/PurchasePage.jsx:61 | the test is unanchored: text before and after a matching address keeps it matching |
| PurchasePage.EmailPatternExample | src/components/pages/PurchasePage.jsx:61 | local@domain.tld with non-blank parts matches |
| PurchasePage.EmailPatternCases | src/components/pages/PurchasePage.jsx:61 | "ann@site.com" matches; "ann@site", "ann @site.com" and "ann@.com" do not |
| PurchasePage.CheckEmail | src/components/pages/PurchasePage.jsx:60-61 | the e-mail lines record "Email is required" for an empty address, else "Email is invalid" when the pattern fails, else nothing |
| PurchasePage.PurchaseView.HandleInputChange | src/components/pages/PurchasePage.jsx:50-55 | only the named field takes the value and only its message is blanked |
| PurchasePage.PurchaseView.ValidateForm | src/components/pages/PurchasePage.jsx:57-69 | the stored errors are the checks' messages and the result is true exactly when there are none |
| PurchasePage.PurchaseView.HandlePurchase | src/components/pages/PurchasePage.jsx:71-92 | an invalid form creates nothing; a valid one appends `purchaseData` with a fresh Id and the purchase defaults to the store |
| PurchasePage.PurchaseErrorsAt | src/components/pages/PurchasePage.jsx:57-65 | a field has an error exactly when its check fails, with that check's message |
| PurchasePage.PurchaseErrors | src/components/pages/PurchasePage.jsx:57-65 | the errors object for e-mail, first name, last name and terms. Its contract says no other field carries a message; `PurchaseErrorsAt` and `EmailErrorCases` state each message exactly |
| PurchasePage.PurchaseData | src/components/pages/PurchasePage.jsx:82-90 | the `purchaseData` object, whose keys are exactly the seven of the literal. `PurchaseDataFields` and `PurchaseDataDomainId` state their values |
| PurchasePage.ValidIffNoFieldFails | src/components/pages/PurchasePage.jsx:67-68 | validation succeeds exactly when every field passes |
| PurchasePage.EmailErrorCases | src/components/pages/PurchasePage.jsx:60-61 | "required" exactly for an empty address, "invalid" exactly for a non-empty one that fails the pattern, no e-mail error exactly when it matches |
| PurchasePage.OptionalFieldsNeverValidated | src/components/pages/PurchasePage.jsx:63-65 | company, phone and payment method never get an error and changing them changes no error |
| PurchasePage.PurchaseDataFields | src/components/pages/PurchasePage.jsx:82-90 | the buyer's name is first name, one space, last name; the amount is the listing's price; e-mail, company, phone and payment method are copied |
| PurchasePage.PurchaseDataDomainId | src/components/pages/PurchasePage.jsx:83 | an address parameter that is an integer's numeral is submitted as that integer |
| PurchasePage.DefaultPaymentIsStripe | src/components/pages/PurchasePage.jsx:27 | an untouched form pays with "stripe" |
| StatusFormat.FormatStatusIsTitled | src/components/pages/SellerPortal.jsx:153-157 | split, capitalise and join equals the character-wise rule: '-' becomes ' ', word starts upper-cased |
| StatusFormat.FormatStatus | src/components/pages/SellerPortal.jsx:153-157 | `split("-")`, capitalise each word, `join(" ")`: the same helper as in AdminPanel.jsx:79-83 and BuyerDashboard.jsx:67-71. `FormatStatusIsTitled`, `FormatStatusPointwise` and `FormatStatusHasNoHyphen` state its result |
| StatusFormat.FormatStatusPointwise | src/components/pages/SellerPortal.jsx:153-157 | same length; each '-' is a space; the first character and each after a '-' are upper-cased; the rest kept |
| StatusFormat.FormatStatusHasNoHyphen | src/components/pages/AdminPanel.jsx:79-83 | the formatted text contains no '-' |
| StatusFormat.SplitPieceCount | src/components/pages/BuyerDashboard.jsx:67-71 | there is one piece more than there are hyphens |
| StatusFormat.FormatTwoWords | src/components/pages/SellerPortal.jsx:153-157 | two hyphen-free words joined by '-' become both words capitalised, joined by ' ' |
| StatusFormat.PendingApproval | src/components/pages/SellerPortal.jsx:153-157 | "pending-approval" reads "Pending Approval" |
| Transfers.Progress | src/components/pages/BuyerDashboard.jsx:258-261 | the width is one of 0, 25, 50, 75, 100; 100 exactly for "completed"; 0 exactly for a status outside the four |
| Transfers.ProgressIncreases | src/components/pages/AdminPanel.jsx:386-389 | the width grows strictly along initiated, awaiting-action, in-progress, completed |
| Transfers.WithTransferStatus | src/components/pages/BuyerDashboard.jsx:127 | every purchase counted has the status |
| Transfers.CountsBounded | src/components/pages/BuyerDashboard.jsx:109-146 | completed plus in-progress never exceeds the total |
| Transfers.CountMembership | src/components/pages/BuyerDashboard.jsx:146 | a purchase is counted under a status exactly when it has that status |
| Transfers.RevenueIsSum | src/components/pages/AdminPanel.jsx:175 | the reduce yields a number exactly when every amount is an integer, and then it is the sum |
| Transfers.Revenue | src/components/pages/AdminPanel.jsx:175 | the `reduce` that sums the amounts, or `None` once an amount is not an integer. `RevenueIsSum` and `RevenueNonNegative` state its value |
| Transfers.RevenueNonNegative | src/components/pages/AdminPanel.jsx:175 | with no negative amounts the revenue is a non-negative number |
| AdminPanel.NewStatus | src/components/pages/AdminPanel.jsx:46 | "approved" exactly for the action "approve", "rejected" for every other action |
| AdminPanel.StatusPatch | src/components/pages/AdminPanel.jsx:47 | the patch has only the key status, holding the new status |
| AdminPanel.AdminView.LoadSucceeded | src/components/pages/AdminPanel.jsx:20-31 | the pending list is the loaded domains with status "pending-approval", purchases are all loaded purchases |
| AdminPanel.AdminView.LoadFailed | src/components/pages/AdminPanel.jsx:32-33 | a failed load keeps the message and the lists |
| AdminPanel.AdminView.HandleApproval | src/components/pages/AdminPanel.jsx:42-56 | the store's domain is merged with the new status, or the not-found error leaves it unchanged; on success exactly the entries with that Id leave the pending list, on failure it is kept; the processing flag for the Id ends false and other flags are untouched |
| AdminPanel.AdminView.ActiveTransfers | src/components/pages/AdminPanel.jsx:156 | the in-progress count is at most the number of purchases, and it is 0 exactly when no purchase's transfer is "in-progress". `Transfers.CountMembership` states which purchases are counted |
| AdminPanel.PendingMembership | src/components/pages/AdminPanel.jsx:29 | a domain is pending exactly when it was loaded with status "pending-approval" |
| AdminPanel.PendingKeepsOrder | src/components/pages/AdminPanel.jsx:29 | the pending list is a subsequence of the loaded domains |
| AdminPanel.Pending | src/components/pages/AdminPanel.jsx:29 | the pending filter. Its contract says it is no longer than the input and every entry is pending; `PendingMembership` and `PendingKeepsOrder` state its exact contents |
| AdminPanel.ApprovalRemovesOnlyThatId | src/components/pages/AdminPanel.jsx:49 | an entry stays exactly when its Id is not `===` the approved one, in the old order |
| AdminPanel.ApprovalSetsStatus | src/components/pages/AdminPanel.jsx:46-47 | the stored domain gets the new status and is no longer pending |
| AdminPanel.PendingAfterApproval | src/components/pages/AdminPanel.jsx:47-49 | replacing the one record with the Id by a non-pending one removes exactly that record from the pending filter |
| AdminPanel.ApprovalKeepsPendingInSync | src/components/pages/AdminPanel.jsx:44-53 | with unique Ids, the local pending list after an approval equals what a new load of the store would show |
| AdminPanel.TotalRevenueIsSum | src/components/pages/AdminPanel.jsx:175 | with integer amounts the revenue figure is their sum |
| AdminPanel.AdminView.TotalRevenue | src/components/pages/AdminPanel.jsx:175 | the "Total Revenue" figure over the loaded purchases. `TotalRevenueIsSum` states that it is their sum when all amounts are integers |
| AIAssistant.StripsListedExtension | src/components/pages/AIAssistantPage.jsx:106 | a name ending in '.' and a listed extension loses exactly that suffix |
| AIAssistant.KeepsUnlistedName | src/components/pages/AIAssistantPage.jsx:106 | a name not ending in a listed extension is unchanged |
| AIAssistant.StripResultIsPrefix | src/components/pages/AIAssistantPage.jsx:106 | the result is a prefix of the name, shorter only by '.' and a listed extension |
| AIAssistant.MatchIsAtLastDot | src/components/pages/AIAssistantPage.jsx:106 | a match can only be at the last '.', so at most one suffix goes |
| AIAssistant.StripFromCases | src/components/pages/AIAssistantPage.jsx:106 | the leftmost search returns the name unchanged exactly when nothing matches, else the part before a match |
| AIAssistant.StripExamples | src/components/pages/AIAssistantPage.jsx:106 | "a.io.com" becomes "a.io"; "shop.tech" becomes "shop" |
| AIAssistant.StripExtension | src/components/pages/AIAssistantPage.jsx:106 | the regex replace. Its contract says the result is a prefix of the name; `StripsListedExtension`, `KeepsUnlistedName` and `StripResultIsPrefix` state which prefix |
| AIAssistant.InitialForm | src/components/pages/AIAssistantPage.jsx:12-19 | every field of the form starts empty |
| AIAssistant.AssistantView.HandleInputChange | src/components/pages/AIAssistantPage.jsx:81-83 | only the named field takes the value |
| AIAssistant.InitiallyDisabled | src/components/pages/AIAssistantPage.jsx:212 | the untouched form keeps the generate button disabled |
| AIAssistant.DisabledOnlyByTwoFields | src/components/pages/AIAssistantPage.jsx:212 | the button is enabled exactly when nothing is loading and business type and keywords are filled; the other fields never matter |
| AIAssistant.Disabled | src/components/pages/AIAssistantPage.jsx:212 | the generate button is disabled while loading, or while business type or keywords is empty. `DisabledOnlyByTwoFields` and `InitiallyDisabled` state it |

## Left out

- Rendering, animation, toasts, icons, styling lookups (`getStatusColor` and the like), routing and `navigate`, `setSearchParams`, `encodeURIComponent` and `window.scrollTo`: presentation and browser calls.
- The artificial `delay` of the services and the interleaving of overlapping `async` handlers: each service call is one atomic method.
- `processing[domainId]` being true while the update runs: the method sets it, but no caller can observe the intermediate state, so only the final flags are stated.
- Object keys are strings in JavaScript, so `processing[5]` and `processing["5"]` are the same entry. The model keys the flags by the Id value itself.
- The loaders are not modelled as service calls: `loadDomains`, `loadData`, `loadDomain` in the purchase page, `loadSellerDomains` with its `slice(0, 3)`, and the buyer dashboard's loads. Only what the browse page and admin panel do with their results is modelled.
- The JSON mock data: the initial store contents are a parameter of the `Store` constructor.
- `submitting`, `purchasing`, `loading` during generation, `activeTab`, and the assistant's hard-coded mock suggestions: constant data, or flags only the markup reads.
- The `catch` paths of `handleSubmit` and `handlePurchase`: `create` cannot fail in the services, so there is nothing to catch.
- `BrowsePage.BrowseView.RunEffect`: sorts by assigning the value `InsertionSort` returns, where the code sorts its copy in place. The copy is private to the effect, so nothing else observes the difference.
- Locale-aware collation in `localeCompare`: names are ordered lexicographically by character.
- Unicode case mapping: `toLowerCase`/`toUpperCase` map ASCII letters only.
- `name.length` counts UTF-16 code units in JavaScript, and `|name|` counts characters here. They differ only outside the Basic Multilingual Plane.
- Date parsing: `createdAt` is the integer timestamp that `new Date(createdAt)` would denote.
- BrowseQuery.Listing: prices and `createdAt` are exact integers, so there is no NaN, no fraction and no double rounding, and neither is the `parseInt` result of a bound. JavaScript numbers are doubles. A listing whose price was stored as NaN (a price of blanks, see `SellerPortal.BlankPriceAccepted`) fails every price bound in the code. Under "price-low" and "price-high" it makes the comparator return NaN, which `sort` treats as a tie, so the comparator is inconsistent and the order is implementation-defined. The model has no such listing, and it does not model rounding of Ids above 2^53 in `Math.max(...) + 1`.
- Listing records on the browse page are a typed `Listing`, and the conversion from the service's records is not modelled.
- Form keys are the fields the markup uses, written as an enumeration: `handleInputChange` with any other key is not modelled.
- Form values: the text inputs carry strings and the checkboxes booleans. The forms' class invariant `WellTyped` states this, and `FitsField` is the condition under which a change keeps it.
- `RecordStore.Store.Update`: requires a patch whose `Id`, if present, is a number, because the store's invariant assumes every Id is numeric. The source places no such limit; every caller in the application passes a status-only patch.
- `RecordStore.Store.Create`: the store is kept with all Ids numeric (the mock data's Ids are integers). A non-numeric Id's effect on `Math.max` is not modelled.
- `Transfers.Revenue`: gives `None` when some amount is not an integer. The JavaScript sum would then be NaN, or a string concatenation.
