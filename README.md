# discord-github-bot: the message-to-issue core in Dafny

The bot watches one Discord channel and turns every message from an author
not on the exclusion list into a GitHub issue. It takes the title from the first line. It takes the body from the
first two lines and appends an author credit and, optionally, the message's
images as Markdown. When GitHub answers, the bot either posts a success
message and deletes both messages after 90 seconds, or reacts with ✅ or ❌.
At start-up it checks five required configuration keys and fills in defaults
for two optional ones.

This project models that logic from `index.js`. The Discord and HTTP effects
become values:

- `wrappers.dfy`: `Option` and `Result`.
- `js_strings.dfy` (module `JsStrings`): the JavaScript string operations
  the bot uses. These are `split` on one character, `substring` and the
  decimal text of a number. `StartsWith` (`startsWith`, also used by the
  status check) and `EndsWith` are predicates that the contracts are
  stated with. `Split` is
  proved inverse to `Join`.
- `js_values.dfy` (module `JsValues`): configuration values and the HTTP
  error as JavaScript values (`JsValue`). Covers truthiness, loose `==`
  against a string literal, and string conversion. `IsPresent` is the check
  `!(!v || v == "" || v == "undefined")`, shared by `isSet` and the HTTP
  callback.
- `config.dfy` (module `Config`): the five `isSet` checks in their order,
  the message naming the first missing key, the defaults of
  `includeAttachments` and `successMessage`, and the issues endpoint.
- `attachments.dfy` (module `Attachments`): `includeImages`. It is an
  imperative loop (`IncludeImages`) proved equal to the function `Render`.
  Lemmas give the order and the concatenation laws of `Render`.
- `issue.dfy` (module `Issue`): `getTitle` and `createGitHubContent`, with
  the footer.
- `bot.dfy` (module `Bot`): the author and attachment gates of
  `getMessage`, the request it submits, and the feedback chosen from
  `(statusCode, error, deletable)`. `HandleMessage` handles one message from
  start to finish.

Behaviour of `index.js` worth noting, which the model reproduces:

- **Title truncation.** `substring(1, 128) + "..."` keeps characters 1 to
  127 of an over-long first line. This drops the line's first character and
  gives a title of 130 characters.
  - `GetTitle` reproduces this.
  - `TitleLength` proves the 130-character bound.
  - `TruncatedTitleDropsFirstCharacter` shows that the title starts with the
    line's second character.
- **Status check.** `statusCode.toString().startsWith("2")` checks the
  leading decimal digit (`StatusLeadingDigit`). So 2, 20-29 and 2000 pass as
  well; for three-digit codes it passes exactly 200-299.
- **No duplicate guard.** Each collected message is handled once; nothing
  marks a message as already turned into an issue.

## Model

| member | source | states |
|---|---|---|
| JsStrings.Split | index.js:82 | `content.split("\n")` always yields at least one line, and no line contains a line break |
| JsStrings.JoinSplit | index.js:82 | splitting loses nothing: joining the lines with line breaks gives the message text back |
| JsStrings.SplitJoin | index.js:82 | joining break-free lines and splitting again gives the same lines: `Split` is inverse to `Join` |
| JsStrings.SplitSingle | index.js:82 | a text without a line break gives exactly one line, itself; a text with one gives at least two lines |
| JsStrings.SplitFirst | index.js:82 | the first line is the text up to the first line break, a prefix of the message |
| JsStrings.Substring | index.js:172 | `substring` takes `s[start..end]` for in-range indices, also when they are swapped; a negative start clamps to 0 and an end past the string clamps to its length |
| JsStrings.NatToDecimal | index.js:125 | the decimal text of a status code is non-empty, all digits, and has no leading zero |
| JsStrings.IntToDecimal | index.js:125 | `toString` of an integer starts with a digit exactly when the integer is not negative |
| JsStrings.ParseNatToDecimal | index.js:125 | reading the decimal text back gives the number, so the rendering is faithful |
| JsStrings.NatToDecimalFirst | index.js:125 | the decimal text starts with the number's leading digit |
| JsValues.StringToNumber | index.js:126 | a string is a number exactly when it is all digits (the empty string is 0), and that number is never negative |
| JsValues.ToString | index.js:14 | a string converts to itself; a number's text reads back as that number |
| JsValues.Truthy | index.js:239 | a value is falsy exactly when it is `undefined`, `null`, `false`, `0` or the empty string; every object is truthy |
| JsValues.LooseEqualsString | index.js:239 | `undefined` and `null` equal no string; `v == ""` holds exactly for `false`, `0`, `""` and an object whose text is empty; `v == "undefined"` exactly for that text as a string or object |
| JsValues.IsPresent | index.js:239 | a present value is truthy, and exactly eight values are absent: `undefined`, `null`, `false`, `0`, and `""` or "undefined" as a string or an object's text |
| JsValues.IsPresentMeaning | index.js:239 | a value passes the `isSet` check exactly when it is `true`, a non-zero number, or a string or object whose text is neither empty nor "undefined" |
| Config.RequiredValues | index.js:7-11 | one value for each of the five required keys, in the order token, channelId, gitUser, gitRepo, gitToken |
| Config.FirstMissing | index.js:238-242 | yields no position exactly when every value passes; otherwise a position whose value fails while every earlier value passes |
| Config.Startup | index.js:7-28 | start-up succeeds exactly when all five required keys pass; otherwise the error names a failing key with every earlier key passing; on success it keeps the endpoint and exclusion list and carries the defaulted `useAttachments` and `successMessage` |
| Config.StartupCheckOrder | index.js:7-11 | a missing token is reported whatever else is missing; with the token present, a missing channel id is reported next |
| Config.StartupCheckOrderRest | index.js:9-11 | with token and channel id present, a missing gitUser is reported first, then gitRepo, then gitToken |
| Config.MissingMessage | index.js:250 | the message is "You must add ", the key and " to the config.json", with the key recoverable from its position |
| Config.UseAttachments | index.js:22-24 | `useAttachments` is the configured `includeAttachments` when that is truthy, and `false` when it is not |
| Config.SuccessMessage | index.js:26-28 | `successMessage` is always truthy: the configured value when truthy, the fixed default sentence otherwise |
| Config.IssueLink | index.js:14 | the endpoint starts with the GitHub repos prefix and ends with "/issues" |
| Config.IssueLinkRoundTrip | index.js:14 | for user and repository names without '/', both can be read back from the endpoint |
| Attachments.Markup | index.js:226 | one attachment renders as `![name](url)`: "![", the name, "](", the URL and ")" in that order |
| Attachments.Render | index.js:222-230 | the rendering is empty exactly when there are no attachments, otherwise starts with "![", and is at least five characters per attachment |
| Attachments.RenderNeverUndefinedText | index.js:195 | a rendering is never the text "undefined" |
| Attachments.RenderConcat | index.js:225-227 | rendering a concatenation of lists is the concatenation of the renderings |
| Attachments.RenderAppend | index.js:226 | appending one attachment extends the rendering by exactly its markup |
| Attachments.RenderAt | index.js:225-227 | each attachment's markup sits between that of all earlier and all later attachments: the order is kept |
| Attachments.IncludeImages | index.js:222-230 | the `forEach` accumulation loop returns exactly the rendering of all attachments |
| Attachments.TwoImagesExample | index.js:222-230 | `a.png`/`u1` and `b.png`/`u2` render as `![a.png](u1)![b.png](u2)` |
| Issue.GetTitle | index.js:168-176 | a first line of at most 128 characters is the title unchanged; a longer one gives 130 characters, the line's characters 1 to 127 followed by "..." |
| Issue.TitleLength | index.js:171-173 | a title has at most 130 characters, and more than 128 exactly when the first line was longer than 128 |
| Issue.TruncatedTitleDropsFirstCharacter | index.js:172 | a truncated title starts with the line's second character, so it is not a prefix of the line when the first two characters differ |
| Issue.HasAttachmentBlock | index.js:195 | an attachment text gets a block only when non-empty, and always when it is non-empty and does not start with 'u' |
| Bot.RenderHasBlock | index.js:195 | the rendering of a message's attachments gets an attachment block in the footer exactly when there is at least one attachment |
| Issue.Footer | index.js:190-197 | the footer starts with the author credit; it ends with a blank line and the attachments unless they are "" or "undefined", in which case it is the credit alone; nothing else lies between credit and attachment block |
| Issue.CreateGitHubContent | index.js:189-213 | every body ends with the footer; a single line or an over-long first line is a prefix of the body; after a short first line the body starts with the second line |
| Issue.ContentCases | index.js:199-212 | the text before the footer is the single line, or the long first line, a break and the second line, or the second line alone |
| Issue.ContentIgnoresLaterLines | index.js:204-212 | lines from the third onward never change the body |
| Issue.SingleLineTitleIsBody | index.js:200-202 | for one line of at most 128 characters, the body is the title followed by the footer |
| Issue.LongFirstLineKept | index.js:204-208 | with an over-long first line and a second line, the title ends with "..." and the body starts with the whole first line, a break and the second line |
| Issue.TitleAndDescriptionExample | index.js:168-213 | "Bug: button broken" and "Clicking the button does nothing." by alice give that title and the body "Clicking the button does nothing.<br /> Issue created by: alice" |
| Bot.AttachmentText | index.js:77-80 | the attachment text is "" unless `useAttachments` is truthy, and then the rendering of the message's attachments |
| Bot.GetMessage | index.js:71-93 | no request exactly when the author id is in the exclusion list; otherwise a request to the endpoint with label "bug", title and body from the split message |
| Bot.AttachmentsIgnoredWhenDisabled | index.js:77-80 | with `useAttachments` falsy the request does not depend on the attachments, and the body has no attachment block |
| Bot.AttachmentsRenderedWhenEnabled | index.js:77-80 | with `useAttachments` truthy the body ends with a blank line and all attachments' markup, or with the author credit when there are none |
| Bot.TwoAttachmentsInOrder | index.js:77-80 | two attachments, enabled, give a body ending with both references in order and no separator |
| Bot.StatusStartsWithTwo | index.js:125 | the status check passes only for non-negative codes, and for those exactly when the decimal text's first character is '2' |
| Bot.IsSuccess | index.js:124-127 | success needs a non-negative status and one of the eight absent error values; for three-digit codes it is exactly 200-299 with an absent error |
| Bot.StatusLeadingDigit | index.js:125 | the status check holds exactly when the code is not negative and its leading digit is 2; for three-digit codes exactly for 200 to 299 |
| Bot.Decide | index.js:124-155 | post and schedule deletion after 90 s exactly on success of a deletable message, ✅ exactly on success of another, ❌ exactly on failure |
| Bot.FailureNeverDeletes | index.js:153-155 | a three-digit status outside 200-299, or a present error, yields ❌ and never a deletion |
| Bot.CreatedIsSuccess | index.js:124-127 | status 201 with no error counts as success |
| Bot.HandleMessage | index.js:71-93 | a message is ignored exactly when its author is excluded; otherwise the request of `getMessage` is submitted and the feedback is that of `Decide`: post and delete after 90 s on success of a deletable message, ✅ on success of another, ❌ exactly on failure |
| Bot.SplitTwoLines | index.js:82 | a title line and a description line without breaks split into exactly those two lines |
| Bot.TitleAndDescriptionMessage | index.js:71-93 | with attachments disabled, on a deletable message, a short title line and a description line answered 201 give the first line as title, the second line with the author credit as body, and the success message posted |
| Bot.ServerErrorReactsCross | index.js:153-155 | a 500 answer leaves ❌ on the message |

## Left out

- Discord login, channel fetch and the message collector (index.js:16-19, 30-63) are external library I/O. The model starts from a collected message.
- The HTTP POST and its headers are not modelled (index.js:107-122). This includes the bearer token from `gitToken` and the JSON encoding. The model keeps only the request's URL, title, body and labels, and takes the answer's status code and error as inputs.
- `channel.send`, `message.react`, `message.delete` and the 90-second `setTimeout` become the returned `Action`. The asynchronous deletion and its timer are not modelled.
- Console output and `process.exit` are not modelled. A failed start-up is an `Err` carrying the message `exitBot` prints. Loading `config.json` is not modelled; the configuration is an input.
- The crash when `response` is undefined after a transport error is not modelled. The decision always receives a status code.
- The body's `number` field is only logged, so the model does not read the answer's body.
- A 2xx answer with no error whose body is not an object (null or undefined, such as an empty body) makes `body.number` (index.js:131) throw inside the callback before any feedback. The model assumes the body is an object, so `Decide` then returns the success feedback.
- String lengths count Unicode characters, not UTF-16 code units as JavaScript does. Emoji and other astral characters in a first line therefore measure differently.
- JavaScript numbers are integers here: no fractions, `NaN` or infinities. Converting a string to a number accepts only plain digit strings. Whitespace, signs, hexadecimal and exponents read as `NaN`.
- A missing `exludeUsers` key makes the source throw on every message. The model always has a list, possibly empty.
- The exclusion list is a list of strings. `includes` (index.js:74) compares strictly, so a numeric id in `config.json` never excludes anyone; a `seq<string>` cannot hold such an id.
- Attachment names and URLs are always strings. The source would also print a `null` name as text.
