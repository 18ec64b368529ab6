/** The `NewBill` form controller (Billed-app-FR-Front/src/containers/NewBill.js):
    the fields it keeps, the part of the page it changes, and its three event
    handlers plus `updateBill`. */
module NewBillController {
  import opened JsValues
  import opened Upload
  import opened Submission

  /** An element of class `error-message` in the page: the one the constructor
      adds under the date field, or one the file handler adds under the file input. */
  datatype ErrorNode = DateError | FileTypeError

  const FileTypeMessage: string := "Seuls les fichiers de type jpg, jpeg, ou png sont accept\U{00E9}s."
  const FutureDateMessage: string := "Vous ne pouvez pas entrer une date future."

  /** The text an error element shows: the date error shows whatever the date
      listener last wrote into it, a file-type error its fixed message. */
  function ErrorText(node: ErrorNode, dateErrorText: string): string {
    match node
    case DateError => dateErrorText
    case FileTypeError => FileTypeMessage
  }

  /** The texts of the error elements in the page, in document order. */
  function ErrorTexts(nodes: seq<ErrorNode>, dateErrorText: string): (texts: seq<string>)
    ensures |texts| == |nodes|
    ensures forall i :: 0 <= i < |nodes| ==> texts[i] == ErrorText(nodes[i], dateErrorText)
  {
    seq(|nodes|, i requires 0 <= i < |nodes| => ErrorText(nodes[i], dateErrorText))
  }

  /** A point in time, as the number `Date` objects compare by. */
  type Instant = int

  /** The date the user picked lies after the current time. A date that does not
      parse (`None`, an invalid `Date`) never compares greater. */
  predicate IsFuture(selected: Option<Instant>, now: Instant) {
    selected.Some? && selected.value > now
  }

  /** `document.querySelector('.error-message').remove()`, when there is such an element. */
  function RemoveFirst(nodes: seq<ErrorNode>): (rest: seq<ErrorNode>)
    ensures |nodes| > 0 ==> [nodes[0]] + rest == nodes
    ensures |nodes| == 0 ==> rest == []
  {
    if |nodes| == 0 then [] else nodes[1..]
  }

  class NewBill {
    const store: Option<Store>

    // The controller's own fields.
    var file: Option<FileHandle>
    var fileUrl: Option<string>
    var fileName: Option<string>
    var billId: Option<string>

    // The page: every `.error-message` element in document order; the text and
    // display of the date error element, which the date listener keeps a
    // reference to whether or not it is still in the page; the two inputs.
    var errorNodes: seq<ErrorNode>
    var dateErrorText: string
    var dateErrorShown: bool
    var dateValue: string
    var fileInputValue: string
    var fileInputFiles: seq<FileHandle>

    // Requests to the store, navigation and console errors, in order.
    var trace: seq<Event>

    /** At most one error element is ever in the page; a stored file always
        comes with its name; navigation only follows a succeeded update; and the
        stored name passes the extension check. */
    ghost predicate Valid()
      reads this
    {
      && |errorNodes| <= 1
      && (file.None? <==> fileName.None?)
      && NavigatesOnlyAfterUpdate(trace)
      && StoredNameAllowed()
    }

    /** A stored file name is a bare name (no directory) with an allowed extension. */
    ghost predicate StoredNameAllowed()
      reads this`fileName
    {
      fileName.Some? ==> Backslash !in fileName.value && IsAllowedExtension(ExtensionOf(fileName.value))
    }

    /** The date error can be seen: it is still in the page and displayed. */
    predicate DateErrorVisible()
      reads this
    {
      DateError in errorNodes && dateErrorShown
    }

    /** The controller on a freshly rendered form: no file, URL, name or key yet;
        a hidden, empty error element under the date field. */
    constructor (store: Option<Store>)
      ensures Valid()
      ensures this.store == store
      ensures file == None && fileUrl == None && fileName == None && billId == None
      ensures errorNodes == [DateError] && dateErrorText == "" && !dateErrorShown
      ensures dateValue == "" && fileInputValue == "" && fileInputFiles == []
      ensures trace == []
    {
      this.store := store;
      file, fileUrl, fileName, billId := None, None, None, None;
      errorNodes := [DateError];
      dateErrorText, dateErrorShown := "", false;
      dateValue, fileInputValue, fileInputFiles := "", "", [];
      trace := [];
    }

    /** The browser's part of picking files, before it fires `change`: the input
        shows `value` and holds `files` (none when the picker was cancelled). */
    method PickFiles(value: string, files: seq<FileHandle>)
      requires Valid()
      modifies this`fileInputValue, this`fileInputFiles
      ensures Valid()
      ensures fileInputValue == value && fileInputFiles == files
    {
      fileInputValue, fileInputFiles := value, files;
    }

    /** The browser's part of typing a date, before it fires `change`. */
    method EnterDate(value: string)
      requires Valid()
      modifies this`dateValue
      ensures Valid()
      ensures dateValue == value
    {
      dateValue := value;
    }

    /** The date listener. A future date fills in and shows the date error and
        clears the field; any other date hides the error. The error can only be
        seen while its element is still in the page. */
    method HandleDateChange(selected: Option<Instant>, now: Instant)
      requires Valid()
      modifies this`dateErrorText, this`dateErrorShown, this`dateValue
      ensures Valid()
      ensures IsFuture(selected, now) ==> dateErrorText == FutureDateMessage && dateErrorShown && dateValue == ""
      ensures !IsFuture(selected, now) ==>
        !dateErrorShown && dateErrorText == old(dateErrorText) && dateValue == old(dateValue)
      ensures DateErrorVisible() <==> IsFuture(selected, now) && DateError in errorNodes
    {
      if IsFuture(selected, now) {
        dateErrorText := FutureDateMessage;
        dateErrorShown := true;
        dateValue := "";
      } else {
        dateErrorShown := false;
      }
    }

    /** `handleChangeFile`. Cancelled: nothing changes. Otherwise the first
        error element in the page goes, whichever field it belongs to; then a
        rejected file adds one file-type error and clears the input but keeps the
        stored file, and an accepted file is stored with its name. */
    method HandleChangeFile()
      requires Valid()
      modifies this`file, this`fileName, this`errorNodes, this`fileInputValue, this`fileInputFiles
      ensures Valid()
      ensures Decide(old(fileInputValue), old(fileInputFiles)).Cancelled? ==> unchanged(this)
      ensures Decide(old(fileInputValue), old(fileInputFiles)).Rejected? ==>
        && errorNodes == RemoveFirst(old(errorNodes)) + [FileTypeError]
        && fileInputValue == "" && fileInputFiles == []
        && file == old(file) && fileName == old(fileName)
      ensures Decide(old(fileInputValue), old(fileInputFiles)).Accepted? ==>
        && errorNodes == RemoveFirst(old(errorNodes))
        && file == Some(old(fileInputFiles)[0]) && fileName == Some(FileNameOf(old(fileInputValue)))
        && fileInputValue == old(fileInputValue) && fileInputFiles == old(fileInputFiles)
      ensures !Decide(old(fileInputValue), old(fileInputFiles)).Cancelled? ==>
        && ErrorTexts(errorNodes, dateErrorText) == (if Accepts(old(fileInputValue)) then [] else [FileTypeMessage])
        && DateError !in errorNodes
        && (FileTypeError in errorNodes <==> !Accepts(old(fileInputValue)))
    {
      var verdict := Decide(fileInputValue, fileInputFiles);
      if verdict.Cancelled? {
        return;
      }
      var remaining := RemoveFirst(errorNodes);
      assert |remaining| == 0 && DateError !in remaining;
      if verdict.Rejected? {
        errorNodes := remaining + [FileTypeError];
        fileInputValue, fileInputFiles := "", [];
      } else {
        errorNodes := remaining;
        file := Some(verdict.file);
        fileName := Some(verdict.fileName);
      }
    }

    /** The form's fields as the submit callback reads them: the date is the
        date input's current value, the other fields are given. */
    function FormAtSubmit(fields: FormFields): (read: FormFields)
      reads this`dateValue
      ensures read.date == dateValue
      ensures read.(date := fields.date) == fields
    {
      fields.(date := dateValue)
    }

    /** `handleSubmit`, with the results of the create and update calls given.
        The events are those `SubmitEvents` describes, with the date taken from
        the date input; a resolved create call records its key and the resolved
        file URL. */
    method HandleSubmit(email: string, fields: FormFields, created: Remote<CreateResponse>, updated: Remote<()>)
      requires Valid()
      modifies this`billId, this`fileUrl, this`trace
      ensures Valid()
      ensures trace == old(trace) + SubmitEvents(store, file, fileName, email, FormAtSubmit(fields), created, updated)
      ensures store.None? || created.Failed? ==> billId == old(billId) && fileUrl == old(fileUrl)
      ensures store.Some? && created.Resolved? ==>
        && billId == created.value.key
        && fileUrl == ResolveFileUrl(created.value.fileUrl, created.value.filePath, store.value.baseUrl)
    {
      if store.None? {
        Record([Uncaught]);
        return;
      }
      Record([CreateSent(file, email)]);
      match created {
        case Failed(reason) =>
          Record([Logged(CreationFailed(reason))]);
        case Resolved(response) =>
          OnCreated(email, fields, response, updated);
      }
    }

    /** The callback of a resolved create call: records the key and the resolved
        file URL, builds the bill, and updates it when the key is truthy. */
    method OnCreated(email: string, fields: FormFields, response: CreateResponse, updated: Remote<()>)
      requires Valid() && store.Some?
      modifies this`billId, this`fileUrl, this`trace
      ensures Valid()
      ensures trace == old(trace) + CreatedEvents(store.value, response, fileName, email, FormAtSubmit(fields), updated)
      ensures billId == response.key
      ensures fileUrl == ResolveFileUrl(response.fileUrl, response.filePath, store.value.baseUrl)
    {
      billId := response.key;
      fileUrl := ResolveFileUrl(response.fileUrl, response.filePath, store.value.baseUrl);
      var bill := BuildBill(email, FormAtSubmit(fields), fileUrl, fileName);
      if Truthy(billId) {
        UpdateBill(bill, updated);
      } else {
        Record([Logged(MissingBillId)]);
      }
    }

    /** Appends what the controller does next to the trace. */
    method Record(events: seq<Event>)
      requires Valid()
      requires NavigatesOnlyAfterUpdate(events) && (events == [] || !events[0].Navigated?)
      modifies this`trace
      ensures Valid()
      ensures trace == old(trace) + events
    {
      NavigationOrderAppend(trace, events);
      trace := trace + events;
    }

    /** `updateBill`: with a store, the update request under the current key,
        then navigation to the bill list on success or a console error on failure. */
    method UpdateBill(bill: Bill, updated: Remote<()>)
      requires Valid()
      modifies this`trace
      ensures Valid()
      ensures trace == old(trace) + UpdateEvents(store, billId, bill, updated)
    {
      UpdateNavigatesIff(store, billId, bill, updated);
      NavigationOrderAppend(trace, UpdateEvents(store, billId, bill, updated));
      if store.Some? {
        trace := trace + [UpdateSent(billId, bill)];
        match updated {
          case Resolved(_) => trace := trace + [Navigated(Bills)];
          case Failed(reason) => trace := trace + [Logged(UpdateFailed(reason))];
        }
      }
    }
  }

  /** A successful submission: an image with an upper-case `JPG` extension is
      selected, the create call resolves with key
      "1234", the update succeeds, and the controller ends on the bill list with
      no error element left. */
  method SubmitWithValidImage(dir: string, base: string, email: string, fields: FormFields, url: string)
    requires Backslash !in base
  {
    var form := new NewBill(Some(Store("http://localhost:5678")));
    var value := dir + [Backslash] + base + [Dot] + "JPG";
    form.PickFiles(value, [FileHandle(1)]);
    AcceptsUpperCaseJpg(dir, base);
    form.HandleChangeFile();
    assert form.errorNodes == [] && form.file == Some(FileHandle(1));
    var response := CreateResponse(Some(url), None, Some("1234"));
    ghost var fileName := form.fileName;
    form.HandleSubmit(email, fields, Resolved(response), Resolved(()));
    SubmitSucceeds(Store("http://localhost:5678"), Some(FileHandle(1)), fileName, email, form.FormAtSubmit(fields), response);
    assert form.trace[|form.trace| - 1] == Navigated(Bills);
    assert form.billId == Some("1234");
  }

  /** A rejected file leaves exactly one error element, whatever was there, and
      hides a later future-date error for good, since the date error element
      was the one removed. */
  method RejectThenFutureDate(dir: string, base: string, now: Instant)
    requires Backslash !in base
  {
    var form := new NewBill(None);
    form.PickFiles(dir + [Backslash] + base + [Dot] + "pdf", [FileHandle(2)]);
    RejectsPdf(dir, base);
    form.HandleChangeFile();
    assert form.errorNodes == [FileTypeError] && form.fileInputValue == "" && form.file == None;
    form.HandleDateChange(Some(now + 1), now);
    assert form.dateValue == "" && !form.DateErrorVisible();
  }

  /** A submission whose create call resolves without a key but with a file path
      sends no update, does not navigate, and still records the URL built from
      the store's base URL. */
  method SubmitWithoutKey(email: string, fields: FormFields, baseUrl: string, filePath: string)
    requires filePath != ""
  {
    var form := new NewBill(Some(Store(baseUrl)));
    form.HandleSubmit(email, fields, Resolved(CreateResponse(None, Some(filePath), None)), Resolved(()));
    assert form.trace == [CreateSent(None, email), Logged(MissingBillId)];
    assert form.fileUrl == Some(baseUrl + "/" + filePath);
  }

  /** A future date that the listener cleared is submitted as an empty date,
      whatever the rest of the form holds. */
  method FutureDateIsNotSubmitted(date: string, now: Instant, email: string, fields: FormFields, key: string)
    requires key != ""
  {
    var form := new NewBill(Some(Store("http://localhost:5678")));
    form.EnterDate(date);
    form.HandleDateChange(Some(now + 1), now);
    var response := CreateResponse(None, None, Some(key));
    form.HandleSubmit(email, fields, Resolved(response), Resolved(()));
    SubmitSucceeds(Store("http://localhost:5678"), None, None, email, fields.(date := ""), response);
    assert form.trace[1].bill.date == "";
  }
}
