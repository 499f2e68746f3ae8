/**
 * The payment form of app.js (`initLogPayment` and `submitPayment`): the
 * draft assembled from the form and the session's institution, the optional
 * upload of the attached schedule file, the `logPayment` request, and what
 * the page does with its answer. Requests and page effects are recorded as
 * events of a trace; the answers of the backend are inputs.
 */
module Submission {
  import opened Wrappers

  const MESSAGE_CLEAR_DELAY_MS: nat := 4000
  const SUCCESS_MESSAGE := "Payment logged successfully!"
  const FAILURE_MESSAGE := "Failed to log payment."
  const CONSOLE_MESSAGE := "Failed to submit payment:"

  /** The file chosen in the `schedule-file` input; its content is left abstract. */
  datatype Attachment = Attachment(fileName: string)

  /** The values of the log-payment form's inputs. */
  datatype FormFields = FormFields(
    transactionID: string,
    date: string,
    amountUSD: string,
    amountZWL: string,
    monthsPaid: string,
    file: Option<Attachment>)

  /** What `form.reset()` leaves: empty inputs and no file. */
  const EMPTY_FORM := FormFields("", "", "", "", "", None)

  /** `paymentData`, the body of the `logPayment` request. */
  datatype Draft = Draft(
    institutionID: string,
    transactionID: string,
    date: string,
    amountUSD: string,
    amountZWL: string,
    monthsPaid: string,
    scheduleFileLink: Option<string>)

  /** A request issued or a page effect performed. */
  datatype Event =
    | Upload(fileName: string)
    | LogPayment(draft: Draft)
    | ReloadHistory
    | ReloadSummary
    | ResetForm
    | Message(text: string)
    | ClearMessageAfter(ms: nat)
    | ConsoleError(text: string)

  /**
   * What became of an attached file: the `FileReader` never fired `onload`, so
   * nothing was sent; or the upload request was sent and it or its decoding
   * failed; or the upload answered with some `fileUrl` (possibly missing).
   */
  datatype UploadOutcome = ReadFailed | UploadFailed | Uploaded(fileUrl: Option<string>)

  /** The answer to `logPayment`: a decoded body with its `success` flag, or a transport/decoding error. */
  datatype LogOutcome = Answered(success: bool) | TransportError

  /** The callback the submit handler leaves waiting. */
  datatype Pending = AwaitingRead(draft: Draft, file: Attachment) | AwaitingUpload(draft: Draft) | AwaitingLog(draft: Draft)

  /** The draft as the submit handler builds it, before any file link is attached. */
  function NewDraft(institutionID: string, form: FormFields): Draft {
    Draft(institutionID, form.transactionID, form.date, form.amountUSD, form.amountZWL, form.monthsPaid, None)
  }

  /** The effects of `submitPayment`'s handlers for one answer. */
  function OutcomeEvents(outcome: LogOutcome): seq<Event> {
    match outcome
    case Answered(true) =>
      [Message(SUCCESS_MESSAGE), ReloadHistory, ReloadSummary, ResetForm, ClearMessageAfter(MESSAGE_CLEAR_DELAY_MS)]
    case Answered(false) =>
      [Message(FAILURE_MESSAGE), ClearMessageAfter(MESSAGE_CLEAR_DELAY_MS)]
    case TransportError =>
      [ConsoleError(CONSOLE_MESSAGE)]
  }

  /**
   * Everything one submission does, from the submit event to the last handler:
   * when a file is attached and read, its upload first; `logPayment` only after
   * a successful upload (or at once without a file); then the answer's effects.
   */
  function SubmissionTrace(institutionID: string, form: FormFields, upload: UploadOutcome, log: LogOutcome): seq<Event> {
    var draft := NewDraft(institutionID, form);
    match form.file
    case None => [LogPayment(draft)] + OutcomeEvents(log)
    case Some(f) =>
      match upload
      case ReadFailed => []
      case UploadFailed => [Upload(f.fileName)]
      case Uploaded(url) => [Upload(f.fileName), LogPayment(draft.(scheduleFileLink := url))] + OutcomeEvents(log)
  }

  /** The kinds of event, for counting. */
  datatype Kind = UploadKind | LogKind | ReloadHistoryKind | ReloadSummaryKind | ResetFormKind | MessageKind | ClearKind | ConsoleKind

  function KindOf(e: Event): Kind {
    match e
    case Upload(_) => UploadKind
    case LogPayment(_) => LogKind
    case ReloadHistory => ReloadHistoryKind
    case ReloadSummary => ReloadSummaryKind
    case ResetForm => ResetFormKind
    case Message(_) => MessageKind
    case ClearMessageAfter(_) => ClearKind
    case ConsoleError(_) => ConsoleKind
  }

  /** How many events of the trace are of kind `k`. */
  function Count(trace: seq<Event>, k: Kind): (n: nat)
    ensures n <= |trace|
    ensures n == 0 <==> forall i :: 0 <= i < |trace| ==> KindOf(trace[i]) != k
  {
    if |trace| == 0 then 0
    else
      var rest := Count(trace[1..], k);
      assert forall i :: 1 <= i < |trace| ==> trace[i] == trace[1..][i - 1];
      (if KindOf(trace[0]) == k then 1 else 0) + rest
  }

  /** Counting distributes over concatenation of traces. */
  lemma {:induction false} CountAppend(a: seq<Event>, b: seq<Event>, k: Kind)
    ensures Count(a + b, k) == Count(a, k) + Count(b, k)
  {
    if |a| == 0 {
      assert a + b == b;
    } else {
      CountAppend(a[1..], b, k);
      assert (a + b)[0] == a[0];
      assert (a + b)[1..] == a[1..] + b;
    }
  }

  /** One step of counting: the first event, then the rest. */
  lemma CountUnfold(t: seq<Event>, k: Kind)
    requires |t| > 0
    ensures Count(t, k) == (if KindOf(t[0]) == k then 1 else 0) + Count(t[1..], k)
  {
  }

  /** Counts of each kind among the effects of one answer. */
  lemma OutcomeCounts(outcome: LogOutcome)
    ensures Count(OutcomeEvents(outcome), UploadKind) == 0
    ensures Count(OutcomeEvents(outcome), LogKind) == 0
    ensures Count(OutcomeEvents(outcome), MessageKind) == (if outcome.Answered? then 1 else 0)
    ensures Count(OutcomeEvents(outcome), ReloadHistoryKind) == (if outcome == Answered(true) then 1 else 0)
    ensures Count(OutcomeEvents(outcome), ReloadSummaryKind) == (if outcome == Answered(true) then 1 else 0)
    ensures Count(OutcomeEvents(outcome), ResetFormKind) == (if outcome == Answered(true) then 1 else 0)
  {
    if outcome == Answered(true) {
      SuccessCount(MessageKind);
      SuccessCount(ReloadHistoryKind);
      SuccessCount(ReloadSummaryKind);
      SuccessCount(ResetFormKind);
      NoRequestsAmongEffects(outcome);
    } else if outcome == Answered(false) {
      FailureCount();
      NoRequestsAmongEffects(outcome);
    } else {
      NoRequestsAmongEffects(outcome);
    }
  }

  /** The effects of an answer issue no request. */
  lemma NoRequestsAmongEffects(outcome: LogOutcome)
    ensures Count(OutcomeEvents(outcome), UploadKind) == 0
    ensures Count(OutcomeEvents(outcome), LogKind) == 0
    ensures outcome.TransportError? ==> Count(OutcomeEvents(outcome), MessageKind) == 0
  {
  }

  /** After an answer without `success`: one message, and no reload or reset. */
  lemma FailureCount()
    ensures Count(OutcomeEvents(Answered(false)), MessageKind) == 1
    ensures Count(OutcomeEvents(Answered(false)), ReloadHistoryKind) == 0
    ensures Count(OutcomeEvents(Answered(false)), ReloadSummaryKind) == 0
    ensures Count(OutcomeEvents(Answered(false)), ResetFormKind) == 0
  {
    var t := OutcomeEvents(Answered(false));
    assert t[1..] == [ClearMessageAfter(MESSAGE_CLEAR_DELAY_MS)];
    CountUnfold(t, MessageKind);
  }

  /** Each of the four kinds other than the timer appears once among the success effects. */
  lemma SuccessCount(k: Kind)
    requires k in {MessageKind, ReloadHistoryKind, ReloadSummaryKind, ResetFormKind}
    ensures Count(OutcomeEvents(Answered(true)), k) == 1
  {
    var t := OutcomeEvents(Answered(true));
    var t1 := [ReloadHistory, ReloadSummary, ResetForm, ClearMessageAfter(MESSAGE_CLEAR_DELAY_MS)];
    var t2 := [ReloadSummary, ResetForm, ClearMessageAfter(MESSAGE_CLEAR_DELAY_MS)];
    var t3 := [ResetForm, ClearMessageAfter(MESSAGE_CLEAR_DELAY_MS)];
    assert t[1..] == t1 && t1[1..] == t2 && t2[1..] == t3;
    CountUnfold(t3, k);
    assert Count(t3, k) == (if k == ResetFormKind then 1 else 0);
    CountUnfold(t2, k);
    assert Count(t2, k) == (if k == ReloadSummaryKind || k == ResetFormKind then 1 else 0);
    CountUnfold(t1, k);
    assert Count(t1, k) == (if k == MessageKind then 0 else 1);
    CountUnfold(t, k);
  }

  /**
   * An upload request is issued exactly once when a file is attached and read,
   * and never otherwise; `logPayment` is issued exactly once unless an attached
   * file's read or upload failed, in which case never.
   */
  lemma RequestCounts(institutionID: string, form: FormFields, upload: UploadOutcome, log: LogOutcome)
    ensures Count(SubmissionTrace(institutionID, form, upload, log), UploadKind)
         == (if form.file.Some? && !upload.ReadFailed? then 1 else 0)
    ensures Count(SubmissionTrace(institutionID, form, upload, log), LogKind)
         == (if form.file.None? || upload.Uploaded? then 1 else 0)
  {
    var draft := NewDraft(institutionID, form);
    NoRequestsAmongEffects(log);
    match form.file
    case None =>
      CountAppend([LogPayment(draft)], OutcomeEvents(log), UploadKind);
      CountAppend([LogPayment(draft)], OutcomeEvents(log), LogKind);
    case Some(f) =>
      match upload
      case ReadFailed =>
      case UploadFailed =>
      case Uploaded(url) =>
        var rest := [LogPayment(draft.(scheduleFileLink := url))] + OutcomeEvents(log);
        assert SubmissionTrace(institutionID, form, upload, log) == [Upload(f.fileName)] + rest;
        CountAppend([Upload(f.fileName)], rest, UploadKind);
        CountAppend([Upload(f.fileName)], rest, LogKind);
        CountAppend([LogPayment(draft.(scheduleFileLink := url))], OutcomeEvents(log), UploadKind);
        CountAppend([LogPayment(draft.(scheduleFileLink := url))], OutcomeEvents(log), LogKind);
  }

  /**
   * Without a file, the first and only request is `logPayment` with the
   * session's institution, the five form values and no schedule link.
   */
  lemma NoFileDraft(institutionID: string, form: FormFields, upload: UploadOutcome, log: LogOutcome)
    requires form.file.None?
    ensures var t := SubmissionTrace(institutionID, form, upload, log);
            && t[0] == LogPayment(Draft(institutionID, form.transactionID, form.date, form.amountUSD,
                                        form.amountZWL, form.monthsPaid, None))
            && forall i :: 0 <= i < |t| ==> !t[i].Upload?
  {
  }

  /**
   * With a file, nothing is sent when it cannot be read; otherwise the upload
   * comes first, and `logPayment` is issued only once the upload has answered,
   * carrying `scheduleFileLink = fileUrl`; a failed upload ends the submission
   * with no further event.
   */
  lemma UploadPrecedesLog(institutionID: string, form: FormFields, upload: UploadOutcome, log: LogOutcome)
    requires form.file.Some?
    ensures var t := SubmissionTrace(institutionID, form, upload, log);
            && (upload == ReadFailed ==> t == [])
            && (upload == UploadFailed ==> t == [Upload(form.file.value.fileName)])
            && (upload.Uploaded? ==> && t[0] == Upload(form.file.value.fileName)
                                     && t[1] == LogPayment(NewDraft(institutionID, form).(scheduleFileLink := upload.fileUrl)))
            && forall i, j :: 0 <= i < |t| && 0 <= j < |t| && t[i].Upload? && t[j].LogPayment? ==> i < j
  {
    var t := SubmissionTrace(institutionID, form, upload, log);
    if upload.Uploaded? {
      RequestCounts(institutionID, form, upload, log);
      CountAppend([t[0]], t[1..], UploadKind);
      assert t == [t[0]] + t[1..];
      assert forall i :: 1 <= i < |t| ==> t[i] == t[1..][i - 1];
    }
  }

  /**
   * After a `success` answer: the success message is set, history and summary
   * are each reloaded exactly once, the form is reset, and the message is
   * cleared after 4000 ms, in that order.
   */
  lemma SuccessEffects(institutionID: string, form: FormFields, upload: UploadOutcome)
    requires form.file.None? || upload.Uploaded?
    ensures var t := SubmissionTrace(institutionID, form, upload, Answered(true));
            && Count(t, ReloadHistoryKind) == 1 && Count(t, ReloadSummaryKind) == 1 && Count(t, ResetFormKind) == 1
            && t[|t| - 5..] == [Message(SUCCESS_MESSAGE), ReloadHistory, ReloadSummary, ResetForm, ClearMessageAfter(4000)]
  {
    EffectCounts(institutionID, form, upload, Answered(true));
    OutcomeCounts(Answered(true));
  }

  /**
   * After an answer without `success`: only the failure message, cleared after
   * 4000 ms; no reload and no reset, so the form keeps what was typed.
   */
  lemma FailureEffects(institutionID: string, form: FormFields, upload: UploadOutcome)
    requires form.file.None? || upload.Uploaded?
    ensures var t := SubmissionTrace(institutionID, form, upload, Answered(false));
            && Count(t, ReloadHistoryKind) == 0 && Count(t, ReloadSummaryKind) == 0 && Count(t, ResetFormKind) == 0
            && t[|t| - 2..] == [Message(FAILURE_MESSAGE), ClearMessageAfter(4000)]
  {
    EffectCounts(institutionID, form, upload, Answered(false));
    OutcomeCounts(Answered(false));
  }

  /** A transport or decoding error after `logPayment` only logs to the console. */
  lemma TransportErrorEffects(institutionID: string, form: FormFields, upload: UploadOutcome)
    requires form.file.None? || upload.Uploaded?
    ensures var t := SubmissionTrace(institutionID, form, upload, TransportError);
            && t[|t| - 1] == ConsoleError(CONSOLE_MESSAGE)
            && t[|t| - 2].LogPayment?
            && Count(t, MessageKind) == 0 && Count(t, ReloadHistoryKind) == 0 && Count(t, ReloadSummaryKind) == 0
  {
    EffectCounts(institutionID, form, upload, TransportError);
    OutcomeCounts(TransportError);
  }

  /** The reload, reset and message counts of a whole submission are those of its answer. */
  lemma EffectCounts(institutionID: string, form: FormFields, upload: UploadOutcome, log: LogOutcome)
    requires form.file.None? || upload.Uploaded?
    ensures forall k :: k != UploadKind && k != LogKind ==>
              Count(SubmissionTrace(institutionID, form, upload, log), k) == Count(OutcomeEvents(log), k)
  {
    var draft := NewDraft(institutionID, form);
    forall k | k != UploadKind && k != LogKind
      ensures Count(SubmissionTrace(institutionID, form, upload, log), k) == Count(OutcomeEvents(log), k)
    {
      match form.file
      case None =>
        CountAppend([LogPayment(draft)], OutcomeEvents(log), k);
      case Some(f) =>
        var d := draft.(scheduleFileLink := upload.fileUrl);
        assert SubmissionTrace(institutionID, form, upload, log) == [Upload(f.fileName)] + ([LogPayment(d)] + OutcomeEvents(log));
        CountAppend([Upload(f.fileName)], [LogPayment(d)] + OutcomeEvents(log), k);
        CountAppend([LogPayment(d)], OutcomeEvents(log), k);
    }
  }

  /**
   * The log-payment form: what its inputs hold, the text of the
   * `log-payment-message` element, and the trace of requests and effects.
   */
  class PaymentForm {
    var form: FormFields
    var message: string
    var trace: seq<Event>

    constructor ()
      ensures form == EMPTY_FORM && message == "" && trace == []
    {
      form := EMPTY_FORM;
      message := "";
      trace := [];
    }

    /** The user fills in the inputs and picks (or clears) the file. */
    method Fill(fields: FormFields)
      modifies this
      ensures form == fields && message == old(message) && trace == old(trace)
    {
      form := fields;
    }

    /** `submitPayment`: issues `logPayment` with the draft as it is now. */
    method SubmitPayment(draft: Draft)
      modifies this
      ensures trace == old(trace) + [LogPayment(draft)]
      ensures form == old(form) && message == old(message)
    {
      trace := trace + [LogPayment(draft)];
    }

    /**
     * The form's submit handler: builds the draft from the session's
     * institution and the inputs; with a file it starts reading it and leaves
     * the `onload` callback waiting, otherwise it submits the draft at once.
     */
    method OnSubmit(institutionID: string) returns (pending: Pending)
      modifies this
      ensures var draft := NewDraft(institutionID, old(form));
              match old(form).file
              case None => pending == AwaitingLog(draft) && trace == old(trace) + [LogPayment(draft)]
              case Some(f) => pending == AwaitingRead(draft, f) && trace == old(trace)
      ensures form == old(form) && message == old(message)
    {
      var paymentData := NewDraft(institutionID, form);
      if form.file.Some? {
        pending := AwaitingRead(paymentData, form.file.value);
      } else {
        SubmitPayment(paymentData);
        pending := AwaitingLog(paymentData);
      }
    }

    /**
     * The reader's `onload`: only once the file has been read is the upload
     * request sent. The reader has no `onerror`, so a failed read does nothing.
     */
    method OnFileRead(paymentData: Draft, file: Attachment, read: bool) returns (next: Option<Draft>)
      modifies this
      ensures read ==> next == Some(paymentData) && trace == old(trace) + [Upload(file.fileName)]
      ensures !read ==> next == None && trace == old(trace)
      ensures form == old(form) && message == old(message)
    {
      if read {
        trace := trace + [Upload(file.fileName)];
        next := Some(paymentData);
      } else {
        next := None;
      }
    }

    /**
     * The upload's `.then`: the returned `fileUrl` (even a missing one) is put
     * on the draft as `scheduleFileLink` and the draft is submitted. With no
     * `.catch`, a failed upload does nothing at all.
     */
    method OnUploadAnswer(paymentData: Draft, outcome: UploadOutcome) returns (next: Option<Draft>)
      modifies this
      ensures outcome.Uploaded? ==> && next == Some(paymentData.(scheduleFileLink := outcome.fileUrl))
                                    && trace == old(trace) + [LogPayment(next.value)]
      ensures !outcome.Uploaded? ==> next == None && trace == old(trace)
      ensures form == old(form) && message == old(message)
    {
      if outcome.Uploaded? {
        var linked := paymentData.(scheduleFileLink := outcome.fileUrl);
        SubmitPayment(linked);
        next := Some(linked);
      } else {
        next := None;
      }
    }

    /** The `logPayment` request's `.then` and `.catch`. */
    method OnLogAnswer(outcome: LogOutcome)
      modifies this
      ensures trace == old(trace) + OutcomeEvents(outcome)
      ensures outcome == Answered(true) ==> form == EMPTY_FORM && message == SUCCESS_MESSAGE
      ensures outcome == Answered(false) ==> form == old(form) && message == FAILURE_MESSAGE
      ensures outcome == TransportError ==> form == old(form) && message == old(message)
    {
      match outcome
      case Answered(success) =>
        if success {
          message := SUCCESS_MESSAGE;
          trace := trace + [Message(SUCCESS_MESSAGE), ReloadHistory, ReloadSummary, ResetForm];
          form := EMPTY_FORM;
        } else {
          message := FAILURE_MESSAGE;
          trace := trace + [Message(FAILURE_MESSAGE)];
        }
        trace := trace + [ClearMessageAfter(MESSAGE_CLEAR_DELAY_MS)];
      case TransportError =>
        trace := trace + [ConsoleError(CONSOLE_MESSAGE)];
    }

    /** The 4000 ms timer set by `submitPayment` fires: the message is emptied. */
    method OnMessageTimeout()
      modifies this
      ensures message == "" && form == old(form) && trace == old(trace)
    {
      message := "";
    }

    /**
     * One submission run to its end, each callback invoked as soon as its
     * answer is given: the trace grows by exactly `SubmissionTrace`; the form
     * is emptied exactly when the backend answered with `success`; the message
     * is set exactly when the backend answered at all.
     */
    method Submit(institutionID: string, upload: UploadOutcome, log: LogOutcome)
      modifies this
      ensures trace == old(trace) + SubmissionTrace(institutionID, old(form), upload, log)
      ensures form == if (old(form).file.None? || upload.Uploaded?) && log == Answered(true) then EMPTY_FORM else old(form)
      ensures message == if !(old(form).file.None? || upload.Uploaded?) || log == TransportError then old(message)
                         else if log == Answered(true) then SUCCESS_MESSAGE
                         else FAILURE_MESSAGE
    {
      var entered := form;
      var draft := NewDraft(institutionID, entered);
      var pending := OnSubmit(institutionID);
      match pending
      case AwaitingLog(d) =>
        OnLogAnswer(log);
        assert trace == old(trace) + [LogPayment(draft)] + OutcomeEvents(log);
      case AwaitingRead(d, f) =>
        var sent := OnFileRead(d, f, !upload.ReadFailed?);
        if sent.Some? {
          var linked := OnUploadAnswer(sent.value, upload);
          if linked.Some? {
            OnLogAnswer(log);
            assert trace == old(trace) + [Upload(f.fileName)]
                            + [LogPayment(draft.(scheduleFileLink := upload.fileUrl))] + OutcomeEvents(log);
          }
        }
      case AwaitingUpload(d) =>
        assert false;
    }
  }
}
