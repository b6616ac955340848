/** The notification send dialog: recipient parsing, the field rules, the
    submit gate and filling the form from a template. */
module NotificationDialog {
  import opened Wrappers
  import opened Strings
  import opened Lookup

  datatype NotificationType = Email | Sms

  datatype EmailTemplate = EmailTemplate(id: string, subject: string, content: string)

  datatype SmsTemplate = SmsTemplate(id: string, content: string)

  /** `NotificationForm` without its `type`, which the dialog's caller fixes. */
  datatype NotificationForm = NotificationForm(
    templateId: string,
    recipients: string,
    subject: string,
    content: string,
    scheduledDate: string,
    scheduledTime: string,
    sendImmediately: bool)

  /** The form's `defaultValues`. */
  const DefaultForm := NotificationForm("", "", "", "", "", "", false)

  const SmsMaxLength: nat := 2000

  /** Every piece trimmed, in order. */
  function TrimEach(parts: seq<string>): (r: seq<string>)
    ensures |r| == |parts|
    ensures forall k :: 0 <= k < |r| ==> r[k] == Trim(parts[k])
  {
    seq(|parts|, k requires 0 <= k < |parts| => Trim(parts[k]))
  }

  /** `recipientsArray`: split on ",", trimmed, blanks dropped. */
  function Recipients(input: string): seq<string> {
    NonEmpty(TrimEach(Split(input, Char(','))))
  }

  /** A recipient as the dialog sends it: non-empty, free of commas, with
      no white space at either end. */
  predicate CleanRecipient(x: string) {
    x != "" && !IsJsSpace(x[0]) && !IsJsSpace(x[|x| - 1]) && ',' !in x
  }

  /** Every recipient is clean, and there are at most one more recipients
      than commas. */
  lemma {:induction false} RecipientsAreClean(input: string)
    ensures |Recipients(input)| <= CountChar(input, ',') + 1
    ensures forall k :: 0 <= k < |Recipients(input)| ==> CleanRecipient(Recipients(input)[k])
  {
    SplitCount(input, ',');
    TrimmedPiecesClean(Split(input, Char(',')));
  }

  /** Trimming comma-free pieces and dropping the blank ones leaves clean
      recipients. */
  lemma {:induction false} TrimmedPiecesClean(parts: seq<string>)
    requires forall k, i :: 0 <= k < |parts| && 0 <= i < |parts[k]| ==> !IsDelim(Char(','), parts[k][i])
    ensures forall k :: 0 <= k < |NonEmpty(TrimEach(parts))| ==> CleanRecipient(NonEmpty(TrimEach(parts))[k])
  {
    var trimmed := TrimEach(parts);
    var r := NonEmpty(trimmed);
    forall k | 0 <= k < |r| ensures CleanRecipient(r[k]) {
      assert r[k] in trimmed;
      var j :| 0 <= j < |trimmed| && trimmed[j] == r[k];
      CleanPiece(parts[j]);
    }
  }

  lemma {:induction false} CleanPiece(piece: string)
    requires forall i :: 0 <= i < |piece| ==> !IsDelim(Char(','), piece[i])
    requires Trim(piece) != ""
    ensures CleanRecipient(Trim(piece))
  {
    var t := Trim(piece);
    var lead := LeadingSpaces(piece);
    forall i | 0 <= i < |t| ensures t[i] != ',' {
      assert t[i] == piece[lead + i];
    }
  }

  /** The recipients of "a,b" are those of a followed by those of b: the
      input order is kept. */
  lemma {:induction false} RecipientsAtComma(a: string, b: string)
    ensures Recipients(a + "," + b) == Recipients(a) + Recipients(b)
  {
    SplitAtDelim(a, ',', b, Char(','));
    assert a + "," + b == a + [','] + b;
    var pa := Split(a, Char(','));
    var pb := Split(b, Char(','));
    TrimEachAppend(pa, pb);
    NonEmptyAppend(TrimEach(pa), TrimEach(pb));
  }

  lemma {:induction false} TrimEachAppend(a: seq<string>, b: seq<string>)
    ensures TrimEach(a + b) == TrimEach(a) + TrimEach(b)
  {
  }

  /** An input without commas names one recipient, itself trimmed, unless it
      is blank. */
  lemma {:induction false} SingleRecipient(input: string)
    requires ',' !in input
    ensures Recipients(input) == if Trim(input) == "" then [] else [Trim(input)]
  {
    SplitNoDelim(input, Char(','));
  }

  /** An empty input names no recipient. */
  lemma {:induction false} RecipientsOfEmpty()
    ensures Recipients("") == []
  {
    assert Split("", Char(',')) == [""];
    assert Trim("") == "";
    assert TrimEach([""]) == [""];
  }

  /** The recipients field's rules: `required`, then `validate`. */
  function RecipientsError(value: string): (e: Option<string>)
    ensures e.None? <==> |Recipients(value)| > 0
  {
    if value == "" then
      RecipientsOfEmpty();
      Some("수신자를 입력해주세요.")
    else if |Recipients(value)| == 0 then Some("최소 1명의 수신자가 필요합니다.")
    else None
  }

  /** The content field's rules; only the SMS text area registers any (the
      e-mail editor writes the value directly). */
  function ContentError(kind: NotificationType, content: string): (e: Option<string>)
    ensures kind == Email ==> e.None?
    ensures kind == Sms ==> (e.None? <==> content != "" && Utf16Length(content) <= SmsMaxLength)
  {
    if kind == Email then None
    else if content == "" then Some("내용을 입력해주세요.")
    else if Utf16Length(content) > SmsMaxLength then Some("SMS는 최대 2000자까지 입력 가능합니다.")
    else None
  }

  /** The subject field exists, and is required, for e-mail only. */
  function SubjectError(kind: NotificationType, subject: string): (e: Option<string>)
    ensures e.Some? <==> kind == Email && subject == ""
  {
    if kind == Email && subject == "" then Some("제목을 입력해주세요.") else None
  }

  /** The scheduled date field: required only when not sending at once. */
  function ScheduledDateError(form: NotificationForm): (e: Option<string>)
    ensures e.Some? <==> !form.sendImmediately && form.scheduledDate == ""
  {
    if !form.sendImmediately && form.scheduledDate == "" then Some("발송 일자를 선택해주세요.") else None
  }

  /** The scheduled time field: required only when not sending at once. */
  function ScheduledTimeError(form: NotificationForm): (e: Option<string>)
    ensures e.Some? <==> !form.sendImmediately && form.scheduledTime == ""
  {
    if !form.sendImmediately && form.scheduledTime == "" then Some("발송 시간을 선택해주세요.") else None
  }

  /** `isFormValid`, which enables the send button. */
  predicate IsFormValid(kind: NotificationType, form: NotificationForm) {
    && form.templateId != ""
    && |Recipients(form.recipients)| > 0
    && (kind == Sms || form.subject != "")
    && form.content != ""
    && (form.sendImmediately || (form.scheduledDate != "" && form.scheduledTime != ""))
  }

  /** Sending happens when the button is enabled and no field rule fails. */
  predicate CanSend(kind: NotificationType, form: NotificationForm) {
    && IsFormValid(kind, form)
    && RecipientsError(form.recipients).None?
    && SubjectError(kind, form.subject).None?
    && ContentError(kind, form.content).None?
    && ScheduledDateError(form).None?
    && ScheduledTimeError(form).None?
  }

  /** Of the field rules only the SMS length limit goes beyond `isFormValid`:
      a valid form is sent exactly when it is e-mail or an SMS of at most
      2000 characters. */
  lemma {:induction false} SendGate(kind: NotificationType, form: NotificationForm)
    ensures CanSend(kind, form) <==> IsFormValid(kind, form) && (kind == Sms ==> Utf16Length(form.content) <= SmsMaxLength)
  {
  }

  /** Sending at once makes the scheduled fields irrelevant. */
  lemma {:induction false} ImmediateIgnoresSchedule(kind: NotificationType, form: NotificationForm, date: string, time: string)
    requires form.sendImmediately
    ensures IsFormValid(kind, form) == IsFormValid(kind, form.(scheduledDate := date, scheduledTime := time))
    ensures CanSend(kind, form) == CanSend(kind, form.(scheduledDate := date, scheduledTime := time))
  {
  }

  /** The template with that id, looked up in the list for the dialog's type. */
  function FindEmailTemplate(templates: seq<EmailTemplate>, id: string): (r: Option<EmailTemplate>)
    ensures r.Some? ==> r.value in templates && r.value.id == id
    ensures r.None? <==> forall k :: 0 <= k < |templates| ==> templates[k].id != id
  {
    Find(templates, (t: EmailTemplate) => t.id == id)
  }

  function FindSmsTemplate(templates: seq<SmsTemplate>, id: string): (r: Option<SmsTemplate>)
    ensures r.Some? ==> r.value in templates && r.value.id == id
    ensures r.None? <==> forall k :: 0 <= k < |templates| ==> templates[k].id != id
  {
    Find(templates, (t: SmsTemplate) => t.id == id)
  }

  /** The form after `handleTemplateSelect(id)`. */
  function SelectTemplate(kind: NotificationType, emails: seq<EmailTemplate>, smss: seq<SmsTemplate>,
                          form: NotificationForm, id: string): (r: NotificationForm)
    ensures r.templateId == id
    ensures r.(templateId := form.templateId, subject := form.subject, content := form.content) == form
    ensures kind == Email && FindEmailTemplate(emails, id).Some? ==>
      r.subject == FindEmailTemplate(emails, id).value.subject && r.content == FindEmailTemplate(emails, id).value.content
    ensures kind == Sms && FindSmsTemplate(smss, id).Some? ==>
      r.subject == form.subject && r.content == FindSmsTemplate(smss, id).value.content
    ensures (if kind == Email then FindEmailTemplate(emails, id).None? else FindSmsTemplate(smss, id).None?) ==>
      r == form.(templateId := id)
  {
    var withId := form.(templateId := id);
    match kind
    case Email =>
      (match FindEmailTemplate(emails, id)
       case Some(t) => withId.(subject := t.subject, content := t.content)
       case None => withId)
    case Sms =>
      (match FindSmsTemplate(smss, id)
       case Some(t) => withId.(content := t.content)
       case None => withId)
  }

  /** Choosing a known e-mail template, when every template has a subject
      and content, recipients are entered and sending is immediate, makes the
      form valid. */
  lemma {:induction false} EmailTemplateCompletesForm(emails: seq<EmailTemplate>, smss: seq<SmsTemplate>, form: NotificationForm, id: string)
    requires id != "" && FindEmailTemplate(emails, id).Some?
    requires forall j :: 0 <= j < |emails| ==> emails[j].subject != "" && emails[j].content != ""
    requires |Recipients(form.recipients)| > 0 && form.sendImmediately
    ensures IsFormValid(Email, SelectTemplate(Email, emails, smss, form, id))
  {
    var t := FindEmailTemplate(emails, id).value;
    assert t.subject != "" && t.content != "";
  }

  /** The open dialog's form state. */
  class SendDialog {
    const kind: NotificationType
    var form: NotificationForm

    constructor(kind: NotificationType)
      ensures this.kind == kind && form == DefaultForm
    {
      this.kind := kind;
      form := DefaultForm;
    }

    method HandleTemplateSelect(emails: seq<EmailTemplate>, smss: seq<SmsTemplate>, id: string)
      modifies this
      ensures form == SelectTemplate(kind, emails, smss, old(form), id)
    {
      form := form.(templateId := id);
      if kind == Email {
        var t := FindEmailTemplate(emails, id);
        if t.Some? {
          form := form.(subject := t.value.subject);
          form := form.(content := t.value.content);
        }
      } else {
        var t := FindSmsTemplate(smss, id);
        if t.Some? {
          form := form.(content := t.value.content);
        }
      }
    }
  }
}
