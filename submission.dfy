/** Submitting the new-bill form: the bill record built from the form, the
    file URL fallback, and the two remote steps (create, then update) whose
    results are given as inputs. What the controller does is recorded as a
    sequence of events: requests to the store, navigation and console errors
    (Billed-app-FR-Front/src/containers/NewBill.js, `handleSubmit` and `updateBill`). */
module Submission {
  import opened JsValues
  import opened JsParseInt
  import opened JsStrings
  import Upload

  /** The store collaborator; only the base URL of its API is read. */
  datatype Store = Store(baseUrl: string)

  /** What `bills().create(...)` resolves with; any field may be missing. */
  datatype CreateResponse = CreateResponse(fileUrl: Option<string>, filePath: Option<string>, key: Option<string>)

  /** The settled result of a remote call: resolved with a value, or rejected. */
  datatype Remote<T> = Resolved(value: T) | Failed(reason: string)

  /** The values of the form's fields, as the strings the inputs hold. */
  datatype FormFields = FormFields(
    expenseType: string, expenseName: string, amount: string, date: string,
    vat: string, pct: string, commentary: string)

  /** The bill record sent to the update call. `amount` is `None` when `parseInt` gives `NaN`. */
  datatype Bill = Bill(
    email: string, expenseType: string, name: string, amount: Option<int>, date: string,
    vat: string, pct: int, commentary: string, fileUrl: Option<string>,
    fileName: Option<string>, status: string)

  const PendingStatus: string := "pending"
  const DefaultPct: int := 20

  /** `parseInt(field) || 20`: `NaN` and 0 are falsy and give the default. */
  function PctOrDefault(field: string): (pct: int)
    ensures pct != 0
    ensures pct == DefaultPct || ParseInt(field) == Some(pct)
    ensures ParseInt(field).Some? && ParseInt(field).value != 0 ==> pct == ParseInt(field).value
  {
    match ParseInt(field)
    case Some(v) => if v != 0 then v else DefaultPct
    case None => DefaultPct
  }

  /** The file URL the bill records: when the store returned no URL but a path,
      the URL is built from the store's base URL and that path. */
  function ResolveFileUrl(fileUrl: Option<string>, filePath: Option<string>, baseUrl: string): (url: Option<string>)
    ensures !Truthy(fileUrl) && Truthy(filePath) ==> url == Some(baseUrl + "/" + filePath.value)
    ensures Truthy(fileUrl) || !Truthy(filePath) ==> url == fileUrl
    ensures Truthy(url) <==> Truthy(fileUrl) || Truthy(filePath)
  {
    if !Truthy(fileUrl) && Truthy(filePath) then Some(baseUrl + "/" + filePath.value) else fileUrl
  }

  /** The bill built from the form: always pending, integer amount and
      percentage, the percentage `parseInt(field) || 20` and so never 0, text
      fields taken as they are. */
  function BuildBill(email: string, fields: FormFields, fileUrl: Option<string>, fileName: Option<string>): (bill: Bill)
    ensures bill.status == PendingStatus
    ensures bill.amount == ParseInt(fields.amount)
    ensures bill.pct == PctOrDefault(fields.pct)
    ensures bill.pct != 0 && (bill.pct == DefaultPct || ParseInt(fields.pct) == Some(bill.pct))
    ensures ParseInt(fields.pct).Some? && ParseInt(fields.pct).value != 0 ==> bill.pct == ParseInt(fields.pct).value
    ensures bill.email == email && bill.expenseType == fields.expenseType && bill.name == fields.expenseName
    ensures bill.date == fields.date && bill.vat == fields.vat && bill.commentary == fields.commentary
    ensures bill.fileUrl == fileUrl && bill.fileName == fileName
  {
    Bill(email, fields.expenseType, fields.expenseName, ParseInt(fields.amount), fields.date,
         fields.vat, PctOrDefault(fields.pct), fields.commentary, fileUrl, fileName, PendingStatus)
  }

  /** Navigation targets; the controller only ever goes to the bill list. */
  datatype Route = Bills

  /** The errors the controller writes to the console. */
  datatype ConsoleError = CreationFailed(reason: string) | MissingBillId | UpdateFailed(reason: string)

  /** The text written first for each console error. */
  function Message(e: ConsoleError): string {
    match e
    case CreationFailed(_) => "Error during bill creation or file upload:"
    case MissingBillId => "Bill ID is not defined, cannot update the bill."
    case UpdateFailed(_) => "Error during bill update:"
  }

  /** The first argument of a console error tells which branch wrote it: two
      errors print the same text exactly when they are of the same kind. */
  lemma MessageIdentifiesError(a: ConsoleError, b: ConsoleError)
    ensures Message(a) == Message(b) <==>
      a.CreationFailed? == b.CreationFailed? && a.MissingBillId? == b.MissingBillId? && a.UpdateFailed? == b.UpdateFailed?
  {
  }

  /** What the controller does, in order. `CreateSent` is the multipart create
      request carrying the stored file and the user's e-mail (sent without a
      content type); `UpdateSent` is the update request selecting `selector`;
      `Uncaught` is the `TypeError` the submit handler throws when it calls
      `bills()` on a missing store. */
  datatype Event =
    | CreateSent(file: Option<Upload.FileHandle>, email: string)
    | UpdateSent(selector: Option<string>, bill: Bill)
    | Navigated(route: Route)
    | Logged(error: ConsoleError)
    | Uncaught

  /** `updateBill(bill)`: nothing without a store; otherwise the update request,
      then navigation to the bill list if it succeeds or a console error if it fails. */
  function UpdateEvents(store: Option<Store>, selector: Option<string>, bill: Bill, updated: Remote<()>): seq<Event> {
    if store.None? then []
    else
      [UpdateSent(selector, bill)] +
      match updated
      case Resolved(_) => [Navigated(Bills)]
      case Failed(reason) => [Logged(UpdateFailed(reason))]
  }

  /** The callback of a resolved create call: the bill is built with the
      resolved file URL and, when the returned key is truthy, updated under that
      key; otherwise a console error. */
  function CreatedEvents(store: Store, response: CreateResponse, fileName: Option<string>,
                         email: string, fields: FormFields, updated: Remote<()>): seq<Event>
  {
    var url := ResolveFileUrl(response.fileUrl, response.filePath, store.baseUrl);
    var bill := BuildBill(email, fields, url, fileName);
    if Truthy(response.key) then UpdateEvents(Some(store), response.key, bill, updated)
    else [Logged(MissingBillId)]
  }

  /** `handleSubmit`: without a store the handler throws an uncaught
      `TypeError` before any request. Otherwise the create request, then a console error if it fails or the
      callback's events if it resolves. */
  function SubmitEvents(store: Option<Store>, file: Option<Upload.FileHandle>, fileName: Option<string>,
                        email: string, fields: FormFields,
                        created: Remote<CreateResponse>, updated: Remote<()>): seq<Event>
  {
    if store.None? then [Uncaught]
    else
      [CreateSent(file, email)] +
      match created
      case Failed(reason) => [Logged(CreationFailed(reason))]
      case Resolved(response) => CreatedEvents(store.value, response, fileName, email, fields, updated)
  }

  /** Every navigation directly follows an update request: the controller only
      navigates once an update it issued has succeeded. */
  predicate NavigatesOnlyAfterUpdate(trace: seq<Event>) {
    forall i :: 0 <= i < |trace| && trace[i].Navigated? ==> 0 < i && trace[i - 1].UpdateSent?
  }

  /** Appending events that do not start with a navigation keeps the ordering. */
  lemma NavigationOrderAppend(a: seq<Event>, b: seq<Event>)
    requires NavigatesOnlyAfterUpdate(a) && NavigatesOnlyAfterUpdate(b)
    requires b == [] || !b[0].Navigated?
    ensures NavigatesOnlyAfterUpdate(a + b)
  {
    var ab := a + b;
    forall i | 0 <= i < |ab| && ab[i].Navigated?
      ensures 0 < i && ab[i - 1].UpdateSent?
    {
      if i >= |a| {
        assert ab[i] == b[i - |a|];
        if i - |a| > 0 {
          assert ab[i - 1] == b[i - 1 - |a|];
        }
      }
    }
  }

  /** The update step navigates exactly when there is a store and the update succeeds,
      and only right after sending the update. */
  lemma UpdateNavigatesIff(store: Option<Store>, selector: Option<string>, bill: Bill, updated: Remote<()>)
    ensures var events := UpdateEvents(store, selector, bill, updated);
      && NavigatesOnlyAfterUpdate(events)
      && (events == [] || !events[0].Navigated?)
      && (Navigated(Bills) in events <==> store.Some? && updated.Resolved?)
  {
  }

  /** The events of a submission never navigate except right after an update request. */
  lemma SubmitEventsOrdered(store: Option<Store>, file: Option<Upload.FileHandle>, fileName: Option<string>,
                            email: string, fields: FormFields,
                            created: Remote<CreateResponse>, updated: Remote<()>)
    ensures var events := SubmitEvents(store, file, fileName, email, fields, created, updated);
      NavigatesOnlyAfterUpdate(events) && (events == [] || !events[0].Navigated?)
  {
    if store.Some? && created.Resolved? && Truthy(created.value.key) {
      var response := created.value;
      var url := ResolveFileUrl(response.fileUrl, response.filePath, store.value.baseUrl);
      var bill := BuildBill(email, fields, url, fileName);
      UpdateNavigatesIff(store, response.key, bill, updated);
      NavigationOrderAppend([CreateSent(file, email)], UpdateEvents(store, response.key, bill, updated));
    }
  }

  /** A submission navigates to the bill list exactly when there is a store, the
      create call resolves with a truthy key and the update call succeeds. */
  lemma SubmitNavigatesIff(store: Option<Store>, file: Option<Upload.FileHandle>, fileName: Option<string>,
                           email: string, fields: FormFields,
                           created: Remote<CreateResponse>, updated: Remote<()>)
    ensures Navigated(Bills) in SubmitEvents(store, file, fileName, email, fields, created, updated) <==>
      store.Some? && created.Resolved? && Truthy(created.value.key) && updated.Resolved?
  {
    if store.Some? && created.Resolved? && Truthy(created.value.key) {
      var response := created.value;
      var url := ResolveFileUrl(response.fileUrl, response.filePath, store.value.baseUrl);
      UpdateNavigatesIff(store, response.key, BuildBill(email, fields, url, fileName), updated);
    }
  }

  /** An update is requested exactly when there is a store and the create call
      resolves with a truthy key; it selects that key and carries the pending bill
      with the resolved file URL. */
  lemma SubmitUpdatesIff(store: Option<Store>, file: Option<Upload.FileHandle>, fileName: Option<string>,
                         email: string, fields: FormFields,
                         created: Remote<CreateResponse>, updated: Remote<()>)
    ensures var events := SubmitEvents(store, file, fileName, email, fields, created, updated);
      if store.Some? && created.Resolved? && Truthy(created.value.key) then
        var response := created.value;
        && |events| >= 2
        && events[1] == UpdateSent(response.key,
             BuildBill(email, fields, ResolveFileUrl(response.fileUrl, response.filePath, store.value.baseUrl), fileName))
        && events[1].bill.status == PendingStatus
      else
        forall e :: e in events ==> !e.UpdateSent?
  {
  }

  /** Without a store the handler throws before sending anything. With one,
      every submission first sends the create request and ends with either the
      navigation or exactly one console error; failures never navigate. */
  lemma SubmitEndsInNavigationOrError(store: Option<Store>, file: Option<Upload.FileHandle>, fileName: Option<string>,
                                      email: string, fields: FormFields,
                                      created: Remote<CreateResponse>, updated: Remote<()>)
    ensures var events := SubmitEvents(store, file, fileName, email, fields, created, updated);
      if store.None? then events == [Uncaught]
      else
        && |events| >= 2
        && events[0] == CreateSent(file, email)
        && (Last(events).Navigated? || Last(events).Logged?)
        && (created.Failed? ==> events == [CreateSent(file, email), Logged(CreationFailed(created.reason))])
        && (created.Resolved? && !Truthy(created.value.key) ==> events == [CreateSent(file, email), Logged(MissingBillId)])
        && (created.Resolved? && Truthy(created.value.key) && updated.Failed? ==>
              |events| == 3 && events[2] == Logged(UpdateFailed(updated.reason)))
  {
  }

  /** The whole successful path: create request, update request under the
      returned key with the pending bill, then navigation to the bill list. */
  lemma SubmitSucceeds(store: Store, file: Option<Upload.FileHandle>, fileName: Option<string>,
                       email: string, fields: FormFields, response: CreateResponse)
    requires Truthy(response.key)
    ensures SubmitEvents(Some(store), file, fileName, email, fields, Resolved(response), Resolved(())) ==
      [ CreateSent(file, email),
        UpdateSent(response.key, BuildBill(email, fields, ResolveFileUrl(response.fileUrl, response.filePath, store.baseUrl), fileName)),
        Navigated(Bills) ]
  {
  }

  /** A percentage field holding a non-zero integer keeps it. */
  lemma PctKeepsNonZero(n: int)
    requires n != 0
    ensures PctOrDefault(IntToDecimal(n)) == n
  {
    ParseIntReadsDecimal(n, "");
    assert IntToDecimal(n) + "" == IntToDecimal(n);
  }

  /** A percentage field without any digit, the empty field among them, falls back to 20. */
  lemma PctDefaultsWithoutDigits(field: string)
    requires forall i :: 0 <= i < |field| ==> !IsDigitIn(field[i], 10)
    ensures PctOrDefault(field) == DefaultPct
  {
    ParseIntWithoutDigits(field);
  }

  /** A percentage field reading 0, followed by anything that ends the number
      (`"0"`, `"0.5"`, `"0 %"`), falls back to 20, since 0 is falsy. */
  lemma PctDefaultsOnZero(rest: string)
    requires rest == [] || (!IsDigitIn(rest[0], 10) && rest[0] != 'x' && rest[0] != 'X')
    ensures PctOrDefault(IntToDecimal(0) + rest) == DefaultPct
  {
    ParseIntReadsDecimal(0, rest);
  }
}
