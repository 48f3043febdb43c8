# Admin dashboard core, modelled in Dafny

This project models the logic of a React admin dashboard for a home-chef
meal service:

- **Order list.** It filters the orders of one server page by customer name. It sorts a copy with a one-column comparator and pages with four guarded buttons. The table renders short ids, status labels, action cells and a "Showing X to Y" line.
- **User and chef lists.** Both render through one shared table. The search box looks at name, email and phone. The fourth column depends on the list; the Status column shows the verification status in both (see "## Findings"). Each list page has a loading flag, an error text and two clamping page buttons.
- **Plan form.** It reads its `FormData` entries back into a plan record. The features text is split and trimmed, and four fields are read as numbers. The form then chooses between an update and a create.
- **"Add Chef" dialog.** It flattens its value record into multipart entries. It toggles cuisines and declares a validation schema.
- **Coupon form.** It replaces its record on every input change and resets the record after a successful create.

State that the source keeps in React components is modelled as classes whose
methods change only the fields they name. The logic behind the rendering is
modelled as functions: filtering, sorting, parsing, labelling and paging
arithmetic. The JavaScript built-ins the code relies on are defined in
`Text`, `Json` and `Seqs` with the semantics the code needs:

- `toLowerCase`, `includes` and `trim`;
- `split` and `join`;
- integer `toString`;
- `Number(...)` on integer text;
- string `<`;
- `JSON.stringify` of string arrays;
- `filter`.

Modules, one file each:

| file | module | models |
|---|---|---|
| wrappers.dfy | Wrappers | `Option` |
| text.dfy | Text | case, search, trim, split/join, decimal text, `Number`, string order |
| seqs.dfy | Seqs | `filter` and order-preserving selection |
| json.dfy | Json | `JSON.stringify` for string arrays and a reader proving it lossless |
| pager.dfy | Pager | the guarded buttons of the order table and the clamped buttons of the lists |
| list_view.dfy | ListView | the user and chef list pages (`UserManagement.tsx`, `ChefService.tsx`) |
| orders.dfy | Orders | the order list page (`Orders.tsx`) |
| order_table.dfy | OrderTable | the order table's cells, menu, header and "Showing" line |
| user_table.dfy | UserTable | the shared user/chef table |
| chef_service.dfy | ChefService | the chef-to-row mapping of the chef list |
| plans.dfy | Plans | the plans page and its form |
| chef_modal.dfy | ChefModal | the "Add Chef" dialog |
| coupon_form.dfy | CouponForm | the coupon form |

Two facts about the code's paging:

- A new search term keeps the current page; only a new page size returns to page 1.
- A fetch that reports fewer pages does not re-clamp the current page.

## Model

| member | source | states |
|---|---|---|
| Orders.NextSort | src/pages/Orders.tsx:83-90 | a click sorts by the clicked column; the same column flips the direction, a new column starts ascending |
| Orders.NextSortTwice | src/pages/Orders.tsx:83-90 | two clicks on the current column restore the sort state |
| Orders.NewColumnThenAgain | src/pages/Orders.tsx:83-90 | a new column clicked twice ends up descending |
| Orders.HeaderClicks | src/pages/Orders.tsx:43-44 | from the initial sort (creation date, descending) n clicks leave the creation date descending exactly when n is even |
| Orders.FilterKeepsExactly | src/pages/Orders.tsx:97-101 | the filtered list is exactly the orders whose first or last name contains the term ignoring case, in input order |
| Orders.EmptyTermKeepsAll | src/pages/Orders.tsx:97-101 | an empty search keeps every order |
| Orders.FilterIgnoresCase | src/pages/Orders.tsx:97-101 | terms equal after lower-casing filter alike |
| Orders.Compare | src/pages/Orders.tsx:103-110 | the comparator returns only -1, 0 or 1 |
| Orders.SortPermutes | src/pages/Orders.tsx:103 | sorting returns a permutation of its input |
| Orders.LeTotal | src/pages/Orders.tsx:103-110 | on a defined column the comparator orders any two orders one way or the other |
| Orders.LeTransitive | src/pages/Orders.tsx:103-110 | on a defined column the comparator's "may precede" is transitive |
| Orders.SortIsOrdered | src/pages/Orders.tsx:103-110 | on a column every order defines, the result is a permutation in which no later value is below (asc) or above (desc) an earlier one |
| Orders.SortIsStable | src/pages/Orders.tsx:103-110 | on every column and for every value, the orders holding that value keep their input order |
| Orders.SortOnUserKeepsOrder | src/pages/Orders.tsx:103-110 | sorting on `user`, where every comparison ties, returns the list unchanged |
| Orders.ShownAreFiltered | src/pages/Orders.tsx:97-125 | what the page hands to the table is a permutation of the matching orders, and every shown order matches |
| Orders.OrdersPage.constructor | src/pages/Orders.tsx:41-49 | no orders, empty search, creation date descending, page 1 of 1, ten rows, loading, no error |
| Orders.OrdersPage.HandleSearch | src/pages/Orders.tsx:81 | stores the term and nothing else |
| Orders.OrdersPage.HandleSort | src/pages/Orders.tsx:83-90 | the new column and direction are `NextSort` of the old ones |
| Orders.OrdersPage.HandlePageSizeChange | src/pages/Orders.tsx:92-95 | a new page size returns to page 1 |
| Orders.OrdersPage.FirstPage | src/components/Orders/OrderTable.tsx:234-238 | the page becomes 1 |
| Orders.OrdersPage.PreviousPage | src/components/Orders/OrderTable.tsx:246-252 | steps back only from a page after the first; keeps the page in range |
| Orders.OrdersPage.NextPage | src/components/Orders/OrderTable.tsx:259-266 | steps forward only from a page before the last; keeps the page in range |
| Orders.OrdersPage.LastPage | src/components/Orders/OrderTable.tsx:274-277 | the page becomes the reported page count |
| Orders.OrdersPage.FetchStart | src/pages/Orders.tsx:56-57 | loading, error cleared |
| Orders.OrdersPage.FetchDone | src/pages/Orders.tsx:68-78 | a success stores the orders and page count; a refusal or a failure keeps them and sets its own message; loading ends in every case |
| OrderTable.IdSuffix | src/components/Orders/OrderTable.tsx:183 | the last six characters of the id (all of a shorter id), and nothing else |
| OrderTable.StatusLabel | src/components/Orders/OrderTable.tsx:201-202 | the first character upper-cased, the rest unchanged |
| OrderTable.StatusLabels | src/components/Orders/OrderTable.tsx:201-202 | the four statuses are labelled Pending, Confirmed, Cancelled, Failed |
| OrderTable.StatusLabelInverse | src/components/Orders/OrderTable.tsx:201-202 | lower-casing the label's first character gives back a status that began in lower case |
| OrderTable.ActionCell | src/components/Orders/OrderTable.tsx:206-215 | the chef's name exactly when a chef is assigned; the assign button exactly for unassigned confirmed orders |
| OrderTable.MealTimeCell | src/components/Orders/OrderTable.tsx:189-190 | the meal time, or "Not selected" when it is missing or empty |
| OrderTable.PageSizeOptionsExactly | src/components/Orders/OrderTable.tsx:137-141 | the menu offers exactly 10, 20, 30, 40, 50, increasing |
| OrderTable.SortableHeader | src/components/Orders/OrderTable.tsx:162-176 | only the creation-date header sorts, and n clicks leave it descending exactly when n is even |
| OrderTable.ShowingAsWritten | src/components/Orders/OrderTable.tsx:226-227 | the line as computed: from `(page-1)*size+1` to `min(page*size, rows)` of `rows` entries |
| OrderTable.ShowingAsWrittenInverted | src/components/Orders/OrderTable.tsx:226-227 | from page 2 on, with at most one page of rows, the line ends before it starts and its total is below its start |
| OrderTable.ShowingAsWrittenExample | src/components/Orders/OrderTable.tsx:226-227 | page 2 of ten-row pages with ten rows reads "Showing 11 to 10 of 10 entries" |
| OrderTable.Showing | src/components/Orders/OrderTable.tsx:226-227 | the corrected line starts after the earlier pages and counts exactly the rows shown |
| OrderTable.ShowingWithinPage | src/components/Orders/OrderTable.tsx:226-227 | the corrected range stays within the current page's slots |
| OrderTable.ShowingFirstPageAgrees | src/components/Orders/OrderTable.tsx:226-227 | on page 1 the two computations agree |
| Pager.GuardedPrevious | src/components/Orders/OrderTable.tsx:246-252 | moves back one page exactly when the page is after the first, staying at or above 1 |
| Pager.GuardedNext | src/components/Orders/OrderTable.tsx:259-266 | moves forward one page exactly when the page is before the last, staying at or below it |
| Pager.GuardedKeepRange | src/components/Orders/OrderTable.tsx:231-280 | each of the four buttons keeps a page in range in range |
| Pager.GuardedDisabledAreNoOps | src/components/Orders/OrderTable.tsx:238-277 | a disabled button would not move the page even if it fired |
| Pager.LastPageWithoutPages | src/components/Orders/OrderTable.tsx:274-277 | with a reported page count of 0, "last page" is enabled and leaves the range |
| Pager.PressAllKeepsRange | src/components/Orders/OrderTable.tsx:231-280 | any sequence of the four buttons keeps the page in range |
| Pager.PreviousRepeatedly | src/components/Orders/OrderTable.tsx:246-252 | n presses of "previous" move to `max(page-n, 1)` |
| Pager.NextRepeatedly | src/components/Orders/OrderTable.tsx:259-266 | n presses of "next" move to `min(page+n, total)` |
| Pager.ClampedPrevious | src/pages/UserManagement.tsx:90 | `max(page-1, 1)` |
| Pager.ClampedNext | src/pages/UserManagement.tsx:100 | `min(page+1, total)` |
| Pager.ClampedKeepRange | src/pages/UserManagement.tsx:87-107 | both list buttons keep a page in range in range |
| Pager.ClampedFixedPoints | src/pages/UserManagement.tsx:89-102 | "previous" on page 1 and "next" on the last page change nothing |
| Pager.BeyondLastPage | src/pages/ChefService.tsx:115 | past the last page the clamped "next" jumps back to the last page while the guarded one stays |
| Pager.StepAllKeepsRange | src/pages/ChefService.tsx:102-122 | any sequence of the two list buttons keeps the page in range |
| Pager.BackRepeatedly | src/pages/ChefService.tsx:105 | n presses of "previous" move to `max(page-n, 1)` |
| ListView.ListPage.constructor | src/pages/UserManagement.tsx:32-36 | no rows, loading, no error, page 1 of 1 |
| ListView.ListPage.View | src/pages/UserManagement.tsx:64-107 | loading text while loading; otherwise the error when it is non-empty; otherwise the table, with page buttons exactly when there is more than one page |
| ListView.ListPage.FetchStart | src/pages/UserManagement.tsx:44 | loading |
| ListView.ListPage.FetchDone | src/pages/UserManagement.tsx:50-61 | a success stores rows and page count and keeps the error; a refusal sets the status message; a failure sets the list's own text; loading ends |
| ListView.ListPage.Previous | src/pages/UserManagement.tsx:90 | the page becomes `ClampedPrevious` of the old one and stays in range |
| ListView.ListPage.Next | src/pages/UserManagement.tsx:100 | the page becomes `ClampedNext` of the old one and stays in range |
| ListView.ErrorStays | src/pages/ChefService.tsx:43-80 | once a non-empty error is shown, a further fetch leaves the page on the error |
| UserTable.FilterKeepsExactly | src/components/Users/UserTable.tsx:45-51 | the rows shown are exactly the users whose first name, last name or email contains the term ignoring case, or whose phone number contains it as typed, in input order |
| UserTable.EmptyTermMatches | src/components/Users/UserTable.tsx:45-51 | with an empty search a user is shown iff it has one of the four searched fields |
| UserTable.EmptyTermShows | src/components/Users/UserTable.tsx:45-51 | with an empty search the table shows exactly the users with a searched field |
| UserTable.NeverShownWithoutFields | src/components/Users/UserTable.tsx:45-51 | a user with none of the four fields is never shown |
| UserTable.PhoneTermIsNumeric | src/components/Users/UserTable.tsx:50 | a term that matches a phone number holds only digits and '-' |
| UserTable.FilterIgnoresCase | src/components/Users/UserTable.tsx:45-51 | terms equal after lower-casing show the same rows, the phone test included |
| UserTable.FourthHeading | src/components/Users/UserTable.tsx:95 | "Rating" for the chef table, "Phone Number" otherwise |
| UserTable.FourthCell | src/components/Users/UserTable.tsx:109-111 | the rating for the chef table, the phone number otherwise |
| UserTable.FourthColumnAgrees | src/components/Users/UserTable.tsx:95-111 | the fourth heading and every fourth cell name the same field |
| UserTable.StatusCell | src/components/Users/UserTable.tsx:112 | corrected: the chef table shows the chef's status, the user table the verification status |
| ChefService.FormatChefData | src/pages/ChefService.tsx:82-93 | one row per chef |
| ChefService.FormatChefRows | src/pages/ChefService.tsx:82-93 | row i carries chef i's id, names, email, experience, rating and joined specialities; "Active" exactly for active chefs |
| ChefService.SpecialityRoundTrip | src/pages/ChefService.tsx:90 | the ", "-joined specialities split and trimmed give the list back |
| ChefService.EmptySearchShowsAllChefs | src/pages/ChefService.tsx:100 | every chef row has a searched field, so an empty search shows every chef |
| ChefService.ChefFourthColumn | src/pages/ChefService.tsx:100 | in the chef list the fourth column is the chef's rating |
| ChefService.ChefStatusAsWrittenEmpty | src/pages/ChefService.tsx:91 | the mapping never sets the verification status, so the status column as written is empty for every chef |
| ChefService.ChefStatusShown | src/pages/ChefService.tsx:91 | with the corrected status cell every chef row shows Active or Inactive |
| Plans.ParseFeaturesShape | src/pages/Plans.tsx:68 | one more feature than commas, each without surrounding white space |
| Plans.ParseField | src/pages/Plans.tsx:67-73 | features are split and trimmed, exactly the four numeric keys are read as numbers, every other key is kept as text |
| Plans.BuildPlanData | src/pages/Plans.tsx:64-74 | the loop builds the record `PlanData` specifies |
| Plans.PlanDataKeys | src/pages/Plans.tsx:64-74 | the record has exactly the keys of the entries |
| Plans.PlanDataLastWins | src/pages/Plans.tsx:64-74 | each key holds the parse of its last entry |
| Plans.FeaturesRoundTrip | src/pages/Plans.tsx:140 | features shown joined with ", " read back as the same list |
| Plans.EditUnchangedKeys | src/pages/Plans.tsx:138-144 | the edit form's record has one key per field |
| Plans.EditUnchangedRoundTrip | src/pages/Plans.tsx:138-144 | an edit form submitted unchanged sends the plan's own fields |
| Plans.ChooseRequestAsWritten | src/pages/Plans.tsx:77-97 | as written: an update of the current plan whenever one is set, else a create |
| Plans.ChooseRequest | src/pages/Plans.tsx:77-97 | corrected: the edit form updates its plan, the add form creates |
| Plans.EditFormChoicesAgree | src/pages/Plans.tsx:214 | for the edit form both choices agree |
| Plans.PlansPage.constructor | src/pages/Plans.tsx:37-40 | no plans, both dialogs closed, no plan being edited |
| Plans.PlansPage.EditClicked | src/pages/Plans.tsx:189-192 | the plan becomes current and the edit dialog opens |
| Plans.PlansPage.SetAddOpen | src/pages/Plans.tsx:154 | the add dialog's state follows the dialog |
| Plans.PlansPage.SetEditOpen | src/pages/Plans.tsx:209 | the edit dialog's state follows the dialog; the current plan stays |
| Plans.PlansPage.Loaded | src/pages/Plans.tsx:49 | the fetched plans replace the list |
| Plans.PlansPage.Submit | src/pages/Plans.tsx:60-110 | corrected: sends `ChooseRequest` of the parsed entries; a saved plan closes both dialogs and clears the current plan; a failed save changes nothing |
| Plans.AddAfterCancelledEdit | src/pages/Plans.tsx:77 | after an edit dialog closed unsaved, a plan entered in the add dialog is sent as an update of the old plan as written, a create when corrected |
| ChefModal.EntryFor | src/components/Chefs/ChefModal.tsx:150-158 | a file as is; an array as JSON text that reads back as the array; null and undefined dropped; booleans as "true"/"false"; numbers as text that reads back as the number |
| ChefModal.BuildFormData | src/components/Chefs/ChefModal.tsx:149-159 | the loop builds the entries `Flatten` specifies |
| ChefModal.FlattenSelects | src/components/Chefs/ChefModal.tsx:150-158 | the entries correspond in order to exactly the keys whose value is neither null nor undefined |
| ChefModal.FlattenKeysDistinct | src/components/Chefs/ChefModal.tsx:150-158 | with distinct keys no key is appended twice |
| ChefModal.FalseIsSent | src/components/Chefs/ChefModal.tsx:156-157 | `false` is sent as "false", not dropped |
| ChefModal.SetField | src/components/Chefs/ChefModal.tsx:211-222 | a field change sets its key and leaves every other key's value |
| ChefModal.FailureMessage | src/components/Chefs/ChefModal.tsx:168-176 | a refusal's error is the server's non-empty message or "Failed to create chef"; a failed request's error is its own message |
| ChefModal.RefusalShown | src/components/Chefs/ChefModal.tsx:194-198 | a refusal always leaves a non-empty error for the alert |
| ChefModal.CheckAppends | src/components/Chefs/ChefModal.tsx:347-349 | ticking a box appends its cuisine after the unchanged list |
| ChefModal.UncheckRemovesAll | src/components/Chefs/ChefModal.tsx:350-352 | clearing a box removes every occurrence of its cuisine and keeps every other entry in order |
| ChefModal.CheckThenUncheck | src/components/Chefs/ChefModal.tsx:346-353 | ticking an unlisted cuisine and clearing it again restores the list |
| ChefModal.AcceptedRecord | src/components/Chefs/ChefModal.tsx:70-106 | an accepted record has a listed gender and travel mode, a positive salary, and no empty list |
| ChefModal.DefaultListRejected | src/components/Chefs/ChefModal.tsx:79-82 | an empty list of previous workplaces or a zero salary is rejected |
| ChefModal.DefaultsRejected | src/components/Chefs/ChefModal.tsx:120-140 | the default values are rejected by the schema |
| ChefModal.InputsKeepRejected | src/components/Chefs/ChefModal.tsx:79-82 | changes through the inputs keep an empty workplace list and so a rejected record |
| ChefModal.InputsNeverSatisfySchema | src/components/Chefs/ChefModal.tsx:120-140 | no sequence of inputs turns the defaults into a record the schema accepts |
| ChefModal.ChefDialog.constructor | src/components/Chefs/ChefModal.tsx:113-140 | closed, not loading, no error, default values |
| ChefModal.ChefDialog.SetOpen | src/components/Chefs/ChefModal.tsx:185 | the open state follows the dialog |
| ChefModal.ChefDialog.Change | src/components/Chefs/ChefModal.tsx:211-222 | the values become `SetField` of the old values |
| ChefModal.ChefDialog.ChooseFiles | src/components/Chefs/ChefModal.tsx:261-262 | the picture becomes the first chosen file, undefined when none was chosen |
| ChefModal.ChefDialog.ToggleCuisineBox | src/components/Chefs/ChefModal.tsx:346-353 | the cuisines become `ToggleCuisine` of the old list |
| ChefModal.ChefDialog.Submit | src/components/Chefs/ChefModal.tsx:142-182 | sends the flattened values; ends closed and not loading; a created chef resets the values and clears the error, any other outcome keeps the values and sets `FailureMessage` |
| CouponForm.MaxDiscountOf | src/components/Coupon/CouponForm.tsx:121 | empty text gives null, any other text its `Number` |
| CouponForm.PlansOf | src/components/Coupon/CouponForm.tsx:132 | the select value split on commas, at least one piece |
| CouponForm.ApplyChangesOnlyItsField | src/components/Coupon/CouponForm.tsx:69-133 | each input handler changes only its own field |
| CouponForm.AlwaysActive | src/components/Coupon/CouponForm.tsx:38 | no input writes `isActive`, so any sequence of edits from the initial record stays active |
| CouponForm.EmptyMaxDiscountIsNull | src/components/Coupon/CouponForm.tsx:121 | clearing the maximum-discount input sets it to null |
| CouponForm.MaxDiscountShown | src/components/Coupon/CouponForm.tsx:118-122 | a nonzero integer maximum reads back from the text shown; a maximum of 0 shows an empty input that reads back as null |
| CouponForm.ChooseOnePlan | src/components/Coupon/CouponForm.tsx:129-133 | choosing a comma-free plan id makes it the only applicable plan |
| CouponForm.SelectValueRoundTrip | src/components/Coupon/CouponForm.tsx:128-132 | the joined value split on commas gives back a non-empty list of comma-free ids |
| CouponForm.NoPlansSelectValue | src/components/Coupon/CouponForm.tsx:128-132 | with no plans the select value is empty and would split into one empty id |
| CouponForm.CouponFormState.constructor | src/components/Coupon/CouponForm.tsx:31-39 | the initial record |
| CouponForm.CouponFormState.Handle | src/components/Coupon/CouponForm.tsx:69-133 | the record becomes `Apply` of the edit, only the edited field changing |
| CouponForm.CouponFormState.Submit | src/components/Coupon/CouponForm.tsx:41-61 | sends the current record; a created coupon resets it to the initial record, a failure leaves it |
| Text.LowerCharDiffers | src/components/Users/UserTable.tsx:47 | two characters that differ but lower-case alike are letters |
| Text.ContainsIffOccurs | src/pages/Orders.tsx:99 | `includes` holds iff the term occurs at some offset |
| Text.ContainsEmpty | src/pages/Orders.tsx:99 | every string includes the empty string |
| Text.TrimIsTrimmed | src/pages/Plans.tsx:68 | `trim` leaves no white space at either end |
| Text.TrimOfTrimmed | src/pages/Plans.tsx:68 | `trim` leaves a trimmed string unchanged |
| Text.SplitCount | src/pages/Plans.tsx:68 | a split yields one more piece than separators |
| Text.SplitPiecesFree | src/pages/Plans.tsx:68 | no piece contains the separator |
| Text.JoinSplit | src/components/Coupon/CouponForm.tsx:128-132 | joining the pieces with the separator gives the text back |
| Text.SplitJoin | src/components/Coupon/CouponForm.tsx:128-132 | splitting separator-free items joined with the separator recovers them |
| Text.SplitNoSep | src/components/Coupon/CouponForm.tsx:132 | a separator-free text splits into itself |
| Text.SplitTrimPieces | src/pages/Plans.tsx:68 | split-and-trim gives Count+1 trimmed, separator-free pieces |
| Text.SplitTrimJoin | src/pages/Plans.tsx:68 | split-and-trim inverts a ", " join of trimmed comma-free items |
| Text.DecimalAlphabet | src/components/Users/UserTable.tsx:50 | an integer's text holds only digits and a leading '-' |
| Text.NumberOfDecimal | src/pages/Plans.tsx:70 | `Number` of an integer's text is that integer |
| Text.StrLessTransitive | src/pages/Orders.tsx:107-108 | string `<` is transitive |
| Text.StrLessTotal | src/pages/Orders.tsx:107-108 | of two different strings one is `<` the other |
| Text.StrLessAsymmetric | src/pages/Orders.tsx:107-108 | string `<` never holds both ways |
| Json.ReadElementsRoundTrip | src/components/Chefs/ChefModal.tsx:155 | the elements written for a non-empty array read back as the array |
| Json.StringifyRoundTrip | src/components/Chefs/ChefModal.tsx:155 | `JSON.stringify` of a string array reads back as that array |
| Seqs.Filter | src/pages/Orders.tsx:97 | `filter` keeps only satisfying members and every satisfying member |
| Seqs.FilterSelects | src/pages/Orders.tsx:97 | `filter` keeps exactly the satisfying positions, in order |
| Seqs.FilterMultiset | src/pages/Orders.tsx:97 | `filter` keeps each satisfying value as often as the input has it |
| Seqs.FilterAppend | src/components/Chefs/ChefModal.tsx:350 | filtering a concatenation filters each part |

## Left out

- HTTP requests, tokens in `localStorage` and `console` logging are left out. Each request's answer is a parameter of the method that handles it (`Fetched`, `Outcome`, `saved`, `created`).
- The time between a request and its answer is left out, and so are overlapping requests. A fetch is a start method and a done method.
- Rendering and styling are left out: markup, CSS classes, icons, status colours.
- `toLocaleDateString` and `toLocaleString` are left out, because they depend on the locale.
- Navigation to a user's profile is left out.
- The order table's "assign chef" button is not part of this model; the model only says when it appears.
- Deleting a chef (`UserTable.tsx`) and deleting a plan (`Plans.tsx`) are left out. A chef is deleted at once by an HTTP call, and the list is refetched only when the server reports success. A plan is deleted after a confirmation, by an HTTP call followed by a refetch.
- Text.Lower: covers ASCII letters only. Unicode case mapping is not modelled.
- Text.UpperChar: `toUpperCase` maps ASCII letters only. Unicode case mapping is not modelled.
- Text.Trim: removes the ECMAScript white space and line terminators it lists, one character per code point.
- Text.StrLess: compares characters, where JavaScript compares UTF-16 code units. The two differ only beyond the Basic Multilingual Plane.
- Text.ToNumber: reads decimal integer text. Every other text (fractions, exponents, hex, NaN) stays an uninterpreted `NotInteger`.
- Amounts, prices, counts, chef ratings and years of experience are unbounded integers, not IEEE doubles. A fractional rating such as 4.5 is not representable in `UserTable.Scalar`.
- Orders.SortOrders: a stable insertion sort stands in for the engine's stable `Array.prototype.sort`. The model proves it a permutation, ordered and stable; that these fix the engine's result is not proved. On a column where some order lacks a value, the comparator is inconsistent, and the engine's order is then implementation-defined. `SortIsOrdered` therefore requires a column that every order defines.
- Orders.Field: `user` and `chef` compare as objects. Both sides then stringify to "[object Object]", so neither is below the other.
- ChefModal.SchemaAccepts: the schema is modelled as a predicate of its own. The dialog's submit handler calls `onSubmit(getValues())` directly, so the resolver never runs on submit. yup's casting (e.g. number text to a number) is modelled only for the salary.
- ChefModal.Record: a `for...in` visit order is modelled as a sequence of keys. React-hook-form's dotted field paths are not modelled.
- ChefModal.ChefDialog: the child `fetchChefs` call after a create is not modelled. The submit button being disabled while loading is not modelled either.
- Plans.PlansPage.Submit: the refetch after a save is the separate `Loaded`.
- Plans.PlanData: models the form's text entries only. The browser's own validation of required and numeric inputs is left out.
- CouponForm.MaxDiscountText: a `NotInteger` maximum is shown as typed; a fractional text whose `Number` is 0 (such as "0.0") is falsy in the source and would show ''. No lemma speaks of that branch.
- CouponForm: the select of plans is single-choice, so `ChooseOnePlan` is what the UI can reach. The `required`/`min` attributes of the inputs are browser validation and are left out.

## Findings

| source | as written | input that shows it | evidently intended | confidence | as-written member | corrected member |
|---|---|---|---|---|---|---|
| src/components/Orders/OrderTable.tsx:226-227 | the range ends at `min(page*size, orders.length)` and the total is `orders.length`, although `orders` holds only the current server page | page 2, 10 rows per page, 10 orders on the page: "Showing 11 to 10 of 10 entries" | the range ends at `(page-1)*size + orders.length`; the total of all orders is not in the response, so the corrected member states the range only | not executed | OrderTable.ShowingAsWrittenExample | OrderTable.ShowingWithinPage |
| src/components/Users/UserTable.tsx:112 | the Status column shows `verificationStatus`, which the chef rows never carry (src/pages/ChefService.tsx:91 sets `status`) | any chef: the Status cell is empty | chef rows show their Active/Inactive status | not executed | ChefService.ChefStatusAsWrittenEmpty | ChefService.ChefStatusShown |
| src/pages/Plans.tsx:77 | the choice between update and create tests only `currentPlan`, which closing the edit dialog (src/pages/Plans.tsx:209) does not clear | edit plan P, close the dialog unsaved, add a new plan: a PUT of P | the add dialog creates a plan | not executed | Plans.AddAfterCancelledEdit | Plans.PlansPage.Submit |
