# NewBill form controller, modelled in Dafny

The Billed application lets an employee file an expense report ("note de
frais") through a form. The `NewBill` controller
(`Billed-app-FR-Front/src/containers/NewBill.js`) sits behind that form and
does four things:

- checks that the picked date is not in the future;
- accepts or rejects the receipt picked in the file input, by its extension;
- on submission, asks the store to create a bill carrying the receipt;
- builds the bill record from the form and asks the store to update that
  bill under the key it returned, then goes back to the bill list.

This project models that controller and proves what it does.

Modules, one per file:

- `JsValues` (`js_values.dfy`): the optional values the controller receives,
  and JavaScript truthiness for them (`undefined`, `null` and `""` are falsy).
- `JsStrings` (`js_strings.dfy`): the string operations the file handler uses.
  These are `split` on one character, taking the last piece, and `toLowerCase`.
  `Split` is paired with `Join`, and both round trips are proved.
- `JsParseInt` (`js_parse_int.dfy`): the global `parseInt` without a radix, as
  in section 19.2.5 of the ECMAScript Language Specification. It skips leading
  white space, reads an optional sign and a `0x`/`0X` prefix, then the longest
  run of digits. `NaN` is `None`.
- `Upload` (`upload.dfy`): the part of `handleChangeFile` that decides. It takes
  the file name after the last backslash and the lower-cased extension after the
  last dot. The verdict is `Cancelled`, `Rejected` or `Accepted`.
- `Submission` (`submission.dfy`) covers the submission side:
  - building the bill;
  - the `fileUrl` fallback;
  - the `|| 20` default for the VAT percentage;
  - the create-then-update protocol. The results of the two remote calls are
    inputs (`Resolved` or `Failed`). What the controller does is a sequence of
    events: requests to the store, navigation, console errors, and the uncaught
    `TypeError` thrown when there is no store.
- `NewBillController` (`new_bill.dfy`) holds class `NewBill`, with the
  controller's fields and the part of the page it changes:
  - every `.error-message` element, in document order;
  - the text and display of the date error element;
  - the value of the date input, and the value and files of the file input;
  - the event trace.

  Its methods are the constructor, the date listener (`HandleDateChange`),
  `HandleChangeFile`, `HandleSubmit` with the callback of a resolved create call
  (`OnCreated`), and `UpdateBill`. Every method keeps `Valid()`:
  - at most one error element is in the page;
  - a stored file always comes with its name;
  - a stored name has no directory and has an allowed extension;
  - every navigation directly follows an update request.

`PickFiles` and `EnterDate` play the browser's part: they fill an input before
it fires `change`. Four scenario methods at the end of `new_bill.dfy` run the
handlers in the order a user would.

The controller removes "the first `.error-message` element" before it checks a
file. The date error element that the constructor adds is such an element, so
the first file selection that is not cancelled removes the date error for good.
The date listener keeps updating that detached element. After that, a future
date still clears the date field, but no error can be seen. The model keeps this
behaviour. `HandleChangeFile` and `HandleDateChange` state it, and
`RejectThenFutureDate` walks through it.

## Model

| member | source | states |
|---|---|---|
| JsValues.Truthy | Billed-app-FR-Front/src/containers/NewBill.js:128 | a missing value and the empty string are falsy; every other string is truthy |
| JsStrings.Split | Billed-app-FR-Front/src/containers/NewBill.js:45 | `split` on one character always gives at least one piece, and no piece contains the separator |
| JsStrings.LastIndexOf | Billed-app-FR-Front/src/containers/NewBill.js:45-46 | -1 exactly when the character does not occur; otherwise the character is at that index and nowhere after it |
| JsStrings.LastSegment | Billed-app-FR-Front/src/containers/NewBill.js:46 | the last piece of a split never contains the separator |
| JsStrings.ToLower | Billed-app-FR-Front/src/containers/NewBill.js:49 | `toLowerCase`, character by character, on ASCII letters; its properties are the lemmas below |
| JsStrings.JoinSplit | Billed-app-FR-Front/src/containers/NewBill.js:45 | joining the pieces of a split with the same separator gives back the string |
| JsStrings.SplitJoin | Billed-app-FR-Front/src/containers/NewBill.js:45 | splitting pieces joined with a separator none of them contains gives back the pieces |
| JsStrings.LastIndexOfUnique | Billed-app-FR-Front/src/containers/NewBill.js:46 | an occurrence with none after it is the last occurrence |
| JsStrings.LastSegmentAfterLastSep | Billed-app-FR-Front/src/containers/NewBill.js:45-46 | the last piece is the text after the last separator, or the whole string when there is none |
| JsStrings.ToLowerKeepsLastIndexOf | Billed-app-FR-Front/src/containers/NewBill.js:49 | lower-casing does not move a separator that is not a letter |
| JsStrings.ToLowerCommutesWithLastSegment | Billed-app-FR-Front/src/containers/NewBill.js:49 | taking the last piece and lower-casing can be done in either order |
| JsStrings.ToLowerIdempotent | Billed-app-FR-Front/src/containers/NewBill.js:49 | lower-casing twice is lower-casing once |
| JsParseInt.ParseInt | Billed-app-FR-Front/src/containers/NewBill.js:117-120 | `parseInt` without a radix: skip white space, read an optional sign, read radix 16 after a `0x` or `0X` prefix and radix 10 otherwise, and give `NaN` when no digit follows; its properties are the lemmas below |
| JsParseInt.TrimStartDropsWhiteSpace | Billed-app-FR-Front/src/containers/NewBill.js:117-120 | `parseInt` drops only white space at the front, and what is left is a suffix that starts with something else |
| JsParseInt.DigitValue | Billed-app-FR-Front/src/containers/NewBill.js:117-120 | a character's digit value is below 10 exactly for `0`-`9`, and never above 36 |
| JsParseInt.DigitRunLength | Billed-app-FR-Front/src/containers/NewBill.js:117-120 | the digit run never extends past the string |
| JsParseInt.DigitRunIsLongest | Billed-app-FR-Front/src/containers/NewBill.js:117-120 | the run read is all digits, and the character after it is not a digit |
| JsParseInt.ValueOfDecimal | Billed-app-FR-Front/src/containers/NewBill.js:117-120 | the decimal digits of a number denote that number |
| JsParseInt.DigitRunOfDigits | Billed-app-FR-Front/src/containers/NewBill.js:117-120 | digits followed by a non-digit are read up to the non-digit |
| JsParseInt.NatToDecimalLeadingDigit | Billed-app-FR-Front/src/containers/NewBill.js:117-120 | the decimal form of a positive number does not start with `0` |
| JsParseInt.ReadDigitsOfRun | Billed-app-FR-Front/src/containers/NewBill.js:117-120 | a run of digits followed by a non-digit is read as the number it denotes |
| JsParseInt.DecimalWithoutHexPrefix | Billed-app-FR-Front/src/containers/NewBill.js:117-120 | a decimal numeral has no `0x` prefix, unless a lone `0` is followed by `x` or `X` |
| JsParseInt.ReadMagnitudeOfDecimal | Billed-app-FR-Front/src/containers/NewBill.js:117-120 | a decimal numeral followed by a non-digit reads as its value; only after a lone `0` must that non-digit not be `x` or `X` |
| JsParseInt.ReadSignedNegative | Billed-app-FR-Front/src/containers/NewBill.js:117-120 | a minus sign negates the magnitude |
| JsParseInt.ReadSignedUnsigned | Billed-app-FR-Front/src/containers/NewBill.js:117-120 | a numeral starting with a digit reads as its magnitude |
| JsParseInt.ParseIntWithoutLeadingWhiteSpace | Billed-app-FR-Front/src/containers/NewBill.js:117-120 | a string that does not start with white space is read as it is |
| JsParseInt.IntToDecimalThen | Billed-app-FR-Front/src/containers/NewBill.js:117-120 | the decimal form of an integer followed by more text is the sign, then the digits of the magnitude followed by that text |
| JsParseInt.ParseIntReadsDecimal | Billed-app-FR-Front/src/containers/NewBill.js:117-120 | `parseInt` reads back the decimal form of every integer, negative ones included, and stops at a following non-digit (`"12.5"` gives 12); only `"0"` must not be followed by `x` or `X` |
| JsParseInt.HexPrefixThen | Billed-app-FR-Front/src/containers/NewBill.js:117-120 | `0x` or `0X` is a hex prefix, and what follows it is read in radix 16 |
| JsParseInt.ReadMagnitudeOfHex | Billed-app-FR-Front/src/containers/NewBill.js:117-120 | after a `0x` or `0X` prefix, a run of hex digits followed by a non-hex-digit reads as its radix-16 value |
| JsParseInt.ParseIntReadsHex | Billed-app-FR-Front/src/containers/NewBill.js:117-120 | `parseInt` reads a `0x`-prefixed numeral in radix 16 (`"0x14"` gives 20) |
| JsParseInt.ParseIntSkipsLeadingWhiteSpace | Billed-app-FR-Front/src/containers/NewBill.js:117-120 | leading white space never changes the result |
| JsParseInt.TrimStartSkips | Billed-app-FR-Front/src/containers/NewBill.js:117-120 | skipping the white space in front of a string gives the same result as skipping it in the string alone |
| JsParseInt.ParseIntWithoutDigits | Billed-app-FR-Front/src/containers/NewBill.js:117-120 | a field without any decimal digit, the empty field among them, is `NaN` |
| Upload.FileNameOf | Billed-app-FR-Front/src/containers/NewBill.js:45-46 | the file name is the text after the last backslash, or the whole value when there is none, and it never contains a backslash |
| Upload.ExtensionOf | Billed-app-FR-Front/src/containers/NewBill.js:49 | the lower-cased last piece of the name split on `.`; its properties are stated by `ExtensionAfterLastDot` |
| Upload.ExtensionAfterLastDot | Billed-app-FR-Front/src/containers/NewBill.js:49 | the extension is the lower-cased text after the last dot; a name without a dot is its own extension; an extension never contains a dot |
| Upload.Accepts | Billed-app-FR-Front/src/containers/NewBill.js:64 | a value is accepted when the extension of its file name is in the allowed list; `AcceptsIff` characterises it |
| Upload.Decide | Billed-app-FR-Front/src/containers/NewBill.js:44-64 | cancelled exactly when no file was selected; rejected exactly when a file was selected and the extension is not allowed; accepted otherwise, with the first file and the derived name, which has no backslash and an allowed extension |
| Upload.AllowedExtensionIff | Billed-app-FR-Front/src/containers/NewBill.js:48 | the allowed extensions are exactly `jpg`, `jpeg` and `png` |
| Upload.AcceptsIff | Billed-app-FR-Front/src/containers/NewBill.js:45-64 | a selection is accepted exactly when the lower-cased text after the last dot of the text after the last backslash is `jpg`, `jpeg` or `png` |
| Upload.AcceptsIgnoresCase | Billed-app-FR-Front/src/containers/NewBill.js:49 | a value and its lower-cased form get the same verdict |
| Upload.SameVerdictUpToCase | Billed-app-FR-Front/src/containers/NewBill.js:49 | two values that differ only in letter case get the same verdict |
| Upload.FileNameAfterDirectory | Billed-app-FR-Front/src/containers/NewBill.js:45-46 | the name in `dir\name` is `name`, whatever the directory holds |
| Upload.ExtensionAfterBase | Billed-app-FR-Front/src/containers/NewBill.js:49 | the extension of `base.ext` is `ext` lower-cased, whatever the base holds |
| Upload.AcceptsPath | Billed-app-FR-Front/src/containers/NewBill.js:45-64 | `dir\base.ext` is accepted exactly when `ext` lower-cased is allowed |
| Upload.AcceptsUpperCaseJpg | Billed-app-FR-Front/src/containers/NewBill.js:48-64 | an upper-case `JPG` extension, as in `C:\fakepath\PHOTO.JPG`, is accepted |
| Upload.RejectsPdf | Billed-app-FR-Front/src/containers/NewBill.js:48-64 | a `pdf` extension is rejected |
| Upload.OnlyLastExtensionCounts | Billed-app-FR-Front/src/containers/NewBill.js:49 | `photo.jpg.pdf` is rejected: only the last extension counts |
| Upload.AcceptsNameWithoutDot | Billed-app-FR-Front/src/containers/NewBill.js:49 | a name without a dot is accepted exactly when the whole name, lower-cased, is an allowed extension |
| Submission.PctOrDefault | Billed-app-FR-Front/src/containers/NewBill.js:120 | the percentage is never 0; it is the parsed field when that is a non-zero integer, and 20 otherwise |
| Submission.PctKeepsNonZero | Billed-app-FR-Front/src/containers/NewBill.js:120 | a field holding a non-zero integer keeps it |
| Submission.PctDefaultsWithoutDigits | Billed-app-FR-Front/src/containers/NewBill.js:120 | an empty or non-numeric field gives 20 |
| Submission.PctDefaultsOnZero | Billed-app-FR-Front/src/containers/NewBill.js:120 | a field reading 0 (`"0"`, `"0.5"`) gives 20, since 0 is falsy |
| Submission.ResolveFileUrl | Billed-app-FR-Front/src/containers/NewBill.js:103-105 | the URL is `baseUrl + "/" + filePath` exactly when the returned URL is falsy and the path is truthy, and otherwise the returned URL; the result is truthy exactly when the URL or the path is |
| Submission.BuildBill | Billed-app-FR-Front/src/containers/NewBill.js:113-125 | the bill is pending; its amount is the parsed amount field; its percentage is `PctOrDefault` of the field: the parsed field when that is a non-zero integer, and 20 otherwise, so never 0; every other field is copied from the form, the file URL and the stored name |
| Submission.Message | Billed-app-FR-Front/src/containers/NewBill.js:131-147 | the first argument of each `console.error`: one text for a failed create, one for a missing key, one for a failed update |
| Submission.MessageIdentifiesError | Billed-app-FR-Front/src/containers/NewBill.js:131-147 | two console errors print the same first argument exactly when they come from the same branch: failed create, missing key or failed update |
| Submission.UpdateEvents | Billed-app-FR-Front/src/containers/NewBill.js:139-149 | `updateBill` as events: nothing without a store; otherwise the update request, then navigation or the update error; `UpdateNavigatesIff` states its properties |
| Submission.CreatedEvents | Billed-app-FR-Front/src/containers/NewBill.js:100-133 | the callback of a resolved create call: the update events for the bill with the resolved URL when the key is truthy, otherwise the missing-key error |
| Submission.SubmitEvents | Billed-app-FR-Front/src/containers/NewBill.js:81-136 | `handleSubmit` as events: the uncaught `TypeError` without a store; otherwise the create request, then the creation error or the callback's events; the lemmas below state its properties |
| Submission.NavigationOrderAppend | Billed-app-FR-Front/src/containers/NewBill.js:144-146 | appending events that do not start with a navigation keeps every navigation right after an update request |
| Submission.UpdateNavigatesIff | Billed-app-FR-Front/src/containers/NewBill.js:139-149 | `updateBill` navigates exactly when there is a store and the update succeeds, and only right after the update request |
| Submission.SubmitEventsOrdered | Billed-app-FR-Front/src/containers/NewBill.js:92-147 | during a submission, every navigation directly follows an update request |
| Submission.SubmitNavigatesIff | Billed-app-FR-Front/src/containers/NewBill.js:92-147 | a submission navigates to the bill list exactly when there is a store, the create call resolves with a truthy key, and the update succeeds |
| Submission.SubmitUpdatesIff | Billed-app-FR-Front/src/containers/NewBill.js:109-132 | an update is requested exactly when there is a store and the key is truthy. It selects the key, right after the create request, and carries the pending bill with the resolved URL |
| Submission.SubmitEndsInNavigationOrError | Billed-app-FR-Front/src/containers/NewBill.js:92-135 | without a store, the only event is the uncaught `TypeError` and nothing is sent. With a store, the create request always comes first. The last event is a navigation or a console error. A failed create, a missing key and a failed update each end in their own error |
| Submission.SubmitSucceeds | Billed-app-FR-Front/src/containers/NewBill.js:92-146 | when both calls succeed and the key is truthy, the whole run is: create request, update request under the key, navigation to the bill list |
| NewBillController.IsFuture | Billed-app-FR-Front/src/containers/NewBill.js:32 | a date is in the future when it parsed and compares greater than now; an invalid date never does |
| NewBillController.RemoveFirst | Billed-app-FR-Front/src/containers/NewBill.js:57-60 | removing the first error element drops exactly the first element, and nothing when there is none |
| NewBillController.ErrorTexts | Billed-app-FR-Front/src/containers/NewBill.js:33-68 | the texts the error elements show, in page order: the date error's current text, or the fixed file-type message |
| NewBillController.NewBill.constructor | Billed-app-FR-Front/src/containers/NewBill.js:5-24 | no file, URL, name or key yet; one hidden, empty date error element in the page; nothing sent |
| NewBillController.NewBill.HandleDateChange | Billed-app-FR-Front/src/containers/NewBill.js:27-39 | a future date fills in and shows the error and clears the field; any other date hides it; the error can be seen exactly when the date is in the future and its element is still in the page |
| NewBillController.NewBill.HandleChangeFile | Billed-app-FR-Front/src/containers/NewBill.js:42-79 | cancelled: nothing changes. Otherwise the first error element goes. A rejected file adds one file-type error and clears the input, but keeps the stored file and name. An accepted file stores the first file and the derived name. Afterwards the date error is gone, and the page shows the file-type message exactly when the file was rejected and no error text otherwise |
| NewBillController.NewBill.FormAtSubmit | Billed-app-FR-Front/src/containers/NewBill.js:113-121 | the form as the callback reads it: the date is the date input's current value, every other field is as given |
| NewBillController.NewBill.HandleSubmit | Billed-app-FR-Front/src/containers/NewBill.js:81-136 | the trace grows by exactly the events of `SubmitEvents`, a single uncaught `TypeError` when there is no store. The bill's date is the date input's current value, so a future date the listener cleared is sent as `""`. A resolved create call records its key and the resolved file URL; otherwise the key and URL are unchanged |
| NewBillController.NewBill.OnCreated | Billed-app-FR-Front/src/containers/NewBill.js:100-133 | records the key and the resolved URL, then updates the pending bill, dated from the date input, when the key is truthy, or logs the missing key |
| NewBillController.NewBill.UpdateBill | Billed-app-FR-Front/src/containers/NewBill.js:139-149 | with a store: the update request under the current key, then navigation on success or a console error on failure; without a store: nothing |

## Left out

- DOM querying, `addEventListener` wiring and `createElement` are left out. The
  page is the list of `.error-message` elements plus the input values the
  handlers read and write: the date input and the file input.
- The other form fields (type, name, amount, VAT, percentage, commentary) are
  given to `HandleSubmit` as they are read at submission. No handler writes them,
  so they are not fields of the class.
- The form is assumed to render no `.error-message` element of its own. The
  view that renders it is not part of this model.
- `e.preventDefault()`, both `console.log` calls (lines 83 and 107) and the
  no-op `this.fileName = this.fileName` (line 111) are left out. None of them
  changes anything the model observes.
- The `FormData` body of the create request is the pair (stored file,
  e-mail), together with its `noContentType` header. `JSON.stringify` of the
  bill is the bill itself.
- The e-mail is a parameter. Reading it from `localStorage` with `JSON.parse`
  is foreign code, including the exception when no user is stored.
- Promises are not modelled as concurrency. The results of the create and
  update calls are inputs, and each submission runs to completion before the
  next. Interleaved submissions are not modelled.
- NewBillController.NewBill.HandleSubmit: a missing store makes `this.store.bills()`
  (lines 92-93) throw a `TypeError` that nothing catches. The model records it as one
  `Uncaught` event and stops. The exception's message and how the browser reports it
  are not modelled.
- NewBillController.NewBill.HandleSubmit: assumes the resolved-call callback
  does not throw. The store is given with its base URL, so the `catch` on line
  135 is only reached by a failed create call.
- NewBillController.NewBill.HandleDateChange: `new Date(...)` parsing and the
  clock are parameters. The picked date is an `Option<Instant>`, where `None`
  is an invalid date, which never compares greater. "Now" is an `Instant`.
- Console output is recorded only as which error branch was taken, as a
  `Logged` event. `Submission.Message` holds the first argument of each error.
- `Logout` (line 17) and the router are left out. Navigation is a `Navigated`
  event carrying the route.
- JsStrings.ToLower: lower-cases ASCII letters only, not the full Unicode
  mapping of `toLowerCase`. This cannot change a verdict: the only non-ASCII
  characters that lower-case to ASCII letters are U+212A (to `k`) and U+0130
  (to `i` with a combining dot), and neither can produce `jpg`, `jpeg` or
  `png`.
- JsParseInt.ParseInt: returns exact integers. It does not model the rounding
  of numerals beyond 2^53 to the nearest double, and it treats `-0` as 0.
- The bill key is a string (`Option<string>`), which is all that the truthiness
  gate and the update selector need.
- The test files `src/__tests__/Bills.js` and `src/__tests__/NewBill.js` are
  not part of this model. They check views and containers whose source is not
  modelled here.
