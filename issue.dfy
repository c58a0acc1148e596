/** Turning the lines of a chat message into the title and the body of an
    issue (`getTitle`, index.js:168-176; `createGitHubContent`,
    index.js:189-213). */
module Issue {
  import opened JsStrings

  /** Longest first line that is used as the title unchanged. */
  const TitleLimit: nat := 128
  const Ellipsis: string := "..."
  /** Joins an over-long first line to the second line in the body. */
  const LineBreak: string := "<br />"
  const CreditLead: string := "<br /> Issue created by: "
  /** Separates the author credit from the attachment markup. */
  const AttachmentSeparator: string := "<br /><br />"

  /** `getTitle`: the first line, or, when it is longer than 128 characters,
      `substring(1, 128)` of it followed by "...". */
  function GetTitle(lines: seq<string>): (title: string)
    requires |lines| >= 1
    ensures |lines[0]| <= TitleLimit ==> title == lines[0]
    ensures |lines[0]| > TitleLimit ==>
      |title| == TitleLimit + 2 &&
      title[..TitleLimit - 1] == lines[0][1..TitleLimit] &&
      EndsWith(title, Ellipsis)
  {
    var title := lines[0];
    if |title| > TitleLimit then Substring(title, 1, 128) + Ellipsis else title
  }

  /** A title is at most 130 characters long, and it is longer than 128 exactly
      when the first line was truncated. */
  lemma TitleLength(lines: seq<string>)
    requires |lines| >= 1
    ensures |GetTitle(lines)| <= TitleLimit + 2
    ensures |GetTitle(lines)| > TitleLimit <==> |lines[0]| > TitleLimit
  {
  }

  /** Truncation drops the first character: a truncated title starts with the
      line's second character, so it is not a prefix of the line whenever the
      first two characters differ. */
  lemma TruncatedTitleDropsFirstCharacter(lines: seq<string>)
    requires |lines| >= 1 && |lines[0]| > TitleLimit
    ensures GetTitle(lines)[0] == lines[0][1]
    ensures lines[0][0] != lines[0][1] ==> !StartsWith(lines[0], GetTitle(lines)[..1])
  {
  }

  /** Whether the footer carries an attachment block. */
  predicate HasAttachmentBlock(attachments: string)
    ensures HasAttachmentBlock(attachments) ==> |attachments| > 0
    ensures |attachments| > 0 && attachments[0] != 'u' ==> HasAttachmentBlock(attachments)
  {
    attachments != "" && attachments != "undefined"
  }

  /** The footer of every body: the author credit, then the attachment markup
      after a blank line unless it is "" or "undefined". */
  function Footer(author: string, attachments: string): (f: string)
    ensures StartsWith(f, CreditLead + author)
    ensures HasAttachmentBlock(attachments) ==> EndsWith(f, AttachmentSeparator + attachments)
    ensures !HasAttachmentBlock(attachments) ==> f == CreditLead + author
    ensures |f| == |CreditLead + author|
      + (if HasAttachmentBlock(attachments) then |AttachmentSeparator + attachments| else 0)
  {
    var footNote := CreditLead + author;
    if HasAttachmentBlock(attachments) then footNote + (AttachmentSeparator + attachments)
    else footNote
  }

  /** `createGitHubContent`: the text chosen from the first two lines, then the
      footer. The whole first line survives in the body unless it is a short
      title followed by a description. */
  function CreateGitHubContent(lines: seq<string>, author: string, attachments: string): (body: string)
    requires |lines| >= 1
    ensures EndsWith(body, Footer(author, attachments))
    ensures |lines| == 1 || |lines[0]| > TitleLimit ==> StartsWith(body, lines[0])
    ensures |lines| >= 2 && |lines[0]| <= TitleLimit ==> StartsWith(body, lines[1])
  {
    var footNote := Footer(author, attachments);
    if |lines| == 1 then lines[0] + footNote
    else if |lines[0]| > TitleLimit then lines[0] + LineBreak + lines[1] + footNote
    else lines[1] + footNote
  }

  /** The text before the footer, case by case. */
  lemma ContentCases(lines: seq<string>, author: string, attachments: string)
    requires |lines| >= 1
    ensures var body := CreateGitHubContent(lines, author, attachments);
      var text := body[..|body| - |Footer(author, attachments)|];
      && (|lines| == 1 ==> text == lines[0])
      && (|lines| >= 2 && |lines[0]| > TitleLimit ==> text == lines[0] + LineBreak + lines[1])
      && (|lines| >= 2 && |lines[0]| <= TitleLimit ==> text == lines[1])
  {
  }

  /** Only the first two lines are used: lines from the third onward never
      affect the body. */
  lemma ContentIgnoresLaterLines(lines: seq<string>, more: seq<string>, author: string, attachments: string)
    requires |lines| >= 2
    ensures CreateGitHubContent(lines + more, author, attachments)
         == CreateGitHubContent(lines[..2], author, attachments)
  {
    assert (lines + more)[0] == lines[..2][0] && (lines + more)[1] == lines[..2][1];
  }

  /** A one-line message whose line fits the limit gives the same text as
      title and as body, the body followed by the footer. */
  lemma SingleLineTitleIsBody(lines: seq<string>, author: string, attachments: string)
    requires |lines| == 1 && |lines[0]| <= TitleLimit
    ensures CreateGitHubContent(lines, author, attachments)
         == GetTitle(lines) + Footer(author, attachments)
  {
  }

  /** An over-long first line followed by a description: the title ends with
      "..." and the body holds the whole first line and the second line. */
  lemma LongFirstLineKept(lines: seq<string>, author: string, attachments: string)
    requires |lines| >= 2 && |lines[0]| > TitleLimit
    ensures EndsWith(GetTitle(lines), Ellipsis)
    ensures var body := CreateGitHubContent(lines, author, attachments);
      StartsWith(body, lines[0] + LineBreak + lines[1])
  {
  }

  /** A worked example: a short title line, a description line, author
      "alice" and no attachments. */
  lemma TitleAndDescriptionExample()
    ensures var lines := ["Bug: button broken", "Clicking the button does nothing."];
      GetTitle(lines) == "Bug: button broken" &&
      CreateGitHubContent(lines, "alice", "")
        == "Clicking the button does nothing.<br /> Issue created by: alice"
  {
    var lines := ["Bug: button broken", "Clicking the button does nothing."];
    assert |lines[0]| <= TitleLimit;
    assert Footer("alice", "") == CreditLead + "alice";
    assert CreateGitHubContent(lines, "alice", "") == lines[1] + (CreditLead + "alice");
  }
}
