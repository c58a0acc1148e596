/** Handling one collected chat message: the author gate and attachment gate
    of `getMessage` (index.js:71-93), the issue request it submits
    (index.js:106-122) and the feedback chosen from the tracker's answer
    (index.js:123-156). The chat and HTTP effects are returned as values. */
module Bot {
  import opened Wrappers
  import opened JsStrings
  import opened JsValues
  import opened Config
  import opened Attachments
  import opened Issue

  /** The parts of a collected chat message the bot reads. */
  datatype Message = Message(
    authorId: string,
    authorName: string,
    content: string,
    attachments: seq<Attachment>,
    deletable: bool)

  /** The issue-creation request: endpoint, title, body and labels. */
  datatype IssueRequest = IssueRequest(url: string, title: string, body: string, labels: seq<string>)

  /** The visible feedback on the source message once the tracker answered:
      post the success message and delete both messages after a delay, or
      react with a check mark, or react with a cross. */
  datatype Action =
    | PostAndScheduleDelete(text: JsValue, delayMs: nat)
    | ReactCheck
    | ReactCross

  const Labels: seq<string> := ["bug"]
  const CleanupDelayMs: nat := 90000

  /** The attachment text `getMessage` passes on: the rendering of the
      message's attachments when `useAttachments` is truthy, "" otherwise. */
  function AttachmentText(settings: Settings, msg: Message): (a: string)
    ensures !Truthy(settings.useAttachments) ==> a == ""
    ensures Truthy(settings.useAttachments) ==> a == Render(msg.attachments)
  {
    if Truthy(settings.useAttachments) then Render(msg.attachments) else ""
  }

  /** `getMessage`: no request for an excluded author; otherwise the request
      built from the message's lines, author name and attachment text. */
  function GetMessage(settings: Settings, msg: Message): (r: Option<IssueRequest>)
    ensures r.None? <==> msg.authorId in settings.exludeUsers
    ensures r.Some? ==> r.value.url == settings.issueLink && r.value.labels == Labels
    ensures r.Some? ==> r.value.title == GetTitle(Split(msg.content, '\n'))
    ensures r.Some? ==>
      r.value.body == CreateGitHubContent(Split(msg.content, '\n'), msg.authorName, AttachmentText(settings, msg))
  {
    if msg.authorId !in settings.exludeUsers then
      var attachments := AttachmentText(settings, msg);
      var contentText := Split(msg.content, '\n');
      Some(IssueRequest(settings.issueLink, GetTitle(contentText),
                        CreateGitHubContent(contentText, msg.authorName, attachments), Labels))
    else None
  }

  /** A rendering of attachments gets the footer's attachment block exactly
      when there are attachments to render. */
  lemma RenderHasBlock(atts: seq<Attachment>)
    ensures HasAttachmentBlock(Render(atts)) <==> atts != []
  {
    RenderNeverUndefinedText(atts);
  }

  /** With `useAttachments` falsy the request does not depend on the
      message's attachments at all. */
  lemma {:induction false} AttachmentsIgnoredWhenDisabled(settings: Settings, msg: Message, other: seq<Attachment>)
    requires !Truthy(settings.useAttachments)
    ensures GetMessage(settings, msg) == GetMessage(settings, msg.(attachments := other))
    ensures GetMessage(settings, msg).Some? ==>
      GetMessage(settings, msg).value.body
        == CreateGitHubContent(Split(msg.content, '\n'), msg.authorName, "")
  {
  }

  /** With `useAttachments` truthy, a message with attachments gets a body
      ending in a blank line and the markup of all of them, in order; one
      without attachments gets no attachment block. */
  lemma {:induction false} AttachmentsRenderedWhenEnabled(settings: Settings, msg: Message)
    requires Truthy(settings.useAttachments)
    requires msg.authorId !in settings.exludeUsers
    ensures msg.attachments != [] ==>
      EndsWith(GetMessage(settings, msg).value.body, AttachmentSeparator + Render(msg.attachments))
    ensures msg.attachments == [] ==>
      EndsWith(GetMessage(settings, msg).value.body, CreditLead + msg.authorName)
  {
    var body := GetMessage(settings, msg).value.body;
    var footer := Footer(msg.authorName, Render(msg.attachments));
    RenderNeverUndefinedText(msg.attachments);
    assert EndsWith(body, footer);
    if msg.attachments != [] {
      EndsWithTrans(body, footer, AttachmentSeparator + Render(msg.attachments));
    }
  }

  /** `response.statusCode.toString().startsWith("2")`. */
  predicate StatusStartsWithTwo(statusCode: int)
    ensures StatusStartsWithTwo(statusCode) ==> statusCode >= 0
    ensures statusCode >= 0 ==> (StatusStartsWithTwo(statusCode) <==> NatToDecimal(statusCode)[0] == '2')
  {
    StartsWith(IntToDecimal(statusCode), "2")
  }

  /** The callback's success check: the status code's decimal text starts with
      "2" and the error is absent, "" or "undefined". */
  predicate IsSuccess(statusCode: int, error: JsValue)
    ensures IsSuccess(statusCode, error) ==> statusCode >= 0 && error in AbsentValues
    ensures 100 <= statusCode < 1000 ==>
      (IsSuccess(statusCode, error) <==> 200 <= statusCode < 300 && error in AbsentValues)
  {
    StatusLeadingDigit(statusCode);
    StatusStartsWithTwo(statusCode) && !IsPresent(error)
  }

  /** The status check looks only at the leading decimal digit; for the
      three-digit HTTP status codes it accepts exactly 200 to 299. */
  lemma StatusLeadingDigit(statusCode: int)
    ensures StatusStartsWithTwo(statusCode) <==> statusCode >= 0 && LeadingDigit(statusCode) == 2
    ensures 100 <= statusCode < 1000 ==> (StatusStartsWithTwo(statusCode) <==> 200 <= statusCode < 300)
  {
    if statusCode >= 0 {
      NatToDecimalFirst(statusCode);
      var s := IntToDecimal(statusCode);
      assert StartsWith(s, "2") <==> s[0] == '2';
      if 100 <= statusCode < 1000 {
        ThreeDigitLeading(statusCode);
      }
    }
  }

  /** The feedback the callback applies to the tracker's answer. */
  function Decide(statusCode: int, error: JsValue, deletable: bool, successMessage: JsValue): (a: Action)
    ensures a.PostAndScheduleDelete? <==> IsSuccess(statusCode, error) && deletable
    ensures a.ReactCheck? <==> IsSuccess(statusCode, error) && !deletable
    ensures a.ReactCross? <==> !IsSuccess(statusCode, error)
    ensures a.PostAndScheduleDelete? ==> a.text == successMessage && a.delayMs == CleanupDelayMs
  {
    if IsSuccess(statusCode, error) then
      if deletable then PostAndScheduleDelete(successMessage, CleanupDelayMs) else ReactCheck
    else ReactCross
  }

  /** A transport error that is a real error object, or a status code outside
      200-299, is a failure: the message gets a cross and nothing is
      deleted. */
  lemma FailureNeverDeletes(statusCode: int, error: JsValue, deletable: bool, successMessage: JsValue)
    requires 100 <= statusCode < 1000
    requires !(200 <= statusCode < 300) || IsPresent(error)
    ensures Decide(statusCode, error, deletable, successMessage) == ReactCross
  {
    StatusLeadingDigit(statusCode);
  }

  /** What happens to one collected message. */
  datatype Handling = Ignored | Submitted(request: IssueRequest, action: Action)

  /** One message end to end, given the tracker's answer to the request. */
  function HandleMessage(settings: Settings, msg: Message, statusCode: int, error: JsValue): (h: Handling)
    ensures h.Ignored? <==> msg.authorId in settings.exludeUsers
    ensures h.Submitted? ==> Some(h.request) == GetMessage(settings, msg)
    ensures h.Submitted? ==> (h.action.ReactCross? <==> !IsSuccess(statusCode, error))
    ensures h.Submitted? ==> h.action == Decide(statusCode, error, msg.deletable, settings.successMessage)
  {
    match GetMessage(settings, msg)
    case None => Ignored
    case Some(request) =>
      Submitted(request, Decide(statusCode, error, msg.deletable, settings.successMessage))
  }

  /** A text of two separator-free lines splits into those two lines. */
  lemma SplitTwoLines(first: string, second: string)
    requires '\n' !in first && '\n' !in second
    ensures Split(first + "\n" + second, '\n') == [first, second]
  {
    var lines := [first, second];
    assert Join(lines, '\n') == first + "\n" + second by {
      assert Join(lines[1..], '\n') == second;
    }
    SplitJoin(lines, '\n');
  }

  /** 201 with no error is a success. */
  lemma CreatedIsSuccess()
    ensures IsSuccess(201, Null)
  {
  }

  /** A message of a short title line and a description line, from a
      non-excluded author, with attachments disabled and answered with 201
      and no error: the title is the first line, the body the second line
      followed by the author credit, and on a deletable message the success
      message is posted. */
  lemma TitleAndDescriptionMessage(settings: Settings, msg: Message, first: string, second: string)
    requires msg.authorId !in settings.exludeUsers
    requires '\n' !in first && '\n' !in second && |first| <= TitleLimit
    requires msg.content == first + "\n" + second
    requires !Truthy(settings.useAttachments) && msg.deletable
    ensures var h := HandleMessage(settings, msg, 201, Null);
      h.Submitted? && h.request.title == first &&
      h.request.body == second + CreditLead + msg.authorName &&
      h.action == PostAndScheduleDelete(settings.successMessage, CleanupDelayMs)
  {
    SplitTwoLines(first, second);
    CreatedIsSuccess();
  }

  /** The same answer with status 500 leaves a cross on the message. */
  lemma ServerErrorReactsCross(settings: Settings, msg: Message)
    requires msg.authorId !in settings.exludeUsers
    ensures HandleMessage(settings, msg, 500, Null).action == ReactCross
  {
  }

  /** Two attachments, attachments enabled: the body ends with the blank line
      and both references in order, with no separator between them. */
  lemma {:induction false} TwoAttachmentsInOrder(settings: Settings, msg: Message, a: Attachment, b: Attachment)
    requires Truthy(settings.useAttachments)
    requires msg.authorId !in settings.exludeUsers
    requires msg.attachments == [a, b]
    ensures EndsWith(GetMessage(settings, msg).value.body, AttachmentSeparator + Markup(a) + Markup(b))
  {
    AttachmentsRenderedWhenEnabled(settings, msg);
    assert Render([a, b]) == Markup(a) + Markup(b) by {
      assert [a] == [] + [a] && [a, b] == [a] + [b];
      RenderAppend([], a);
      RenderAppend([a], b);
    }
    assert AttachmentSeparator + Render(msg.attachments) == AttachmentSeparator + Markup(a) + Markup(b);
  }
}
