/** Start-up: checking the required configuration keys, the defaults of the
    optional ones and the issue endpoint built from the repository
    coordinates (index.js:4-28, 238-252). */
module Config {
  import opened Wrappers
  import opened JsStrings
  import opened JsValues

  /** The contents of `config.json` that the bot reads. `exludeUsers` (the
      key is spelled this way in the configuration) is the list of author ids
      whose messages never become issues. */
  datatype ConfigFile = ConfigFile(
    token: JsValue,
    channelId: JsValue,
    gitUser: JsValue,
    gitRepo: JsValue,
    gitToken: JsValue,
    exludeUsers: seq<string>,
    includeAttachments: JsValue,
    successMessage: JsValue)

  /** The module-level constants the message handling uses once start-up has
      passed the checks. */
  datatype Settings = Settings(
    issueLink: string,
    exludeUsers: seq<string>,
    useAttachments: JsValue,
    successMessage: JsValue)

  const DefaultSuccessMessage: string :=
    "Your issue was successfully created. We will work on it asap."

  const IssuesPrefix: string := "https://api.github.com/repos/"
  const IssuesSuffix: string := "/issues"

  /** The required keys, in the order in which start-up checks them. */
  const RequiredKeys: seq<string> := ["token", "channelId", "gitUser", "gitRepo", "gitToken"]

  /** The values of the required keys, in the order of `RequiredKeys`. */
  function RequiredValues(cfg: ConfigFile): (vs: seq<JsValue>)
    ensures |vs| == |RequiredKeys|
    ensures vs[0] == cfg.token && vs[1] == cfg.channelId && vs[2] == cfg.gitUser
    ensures vs[3] == cfg.gitRepo && vs[4] == cfg.gitToken
  {
    [cfg.token, cfg.channelId, cfg.gitUser, cfg.gitRepo, cfg.gitToken]
  }

  /** The position of the first value that `isSet` rejects, if any. */
  function FirstMissing(values: seq<JsValue>): (r: Option<nat>)
    ensures r.None? <==> forall i :: 0 <= i < |values| ==> IsPresent(values[i])
    ensures r.Some? ==> r.value < |values| && !IsPresent(values[r.value])
    ensures r.Some? ==> forall j :: 0 <= j < r.value ==> IsPresent(values[j])
  {
    if |values| == 0 then None
    else if !IsPresent(values[0]) then Some(0)
    else match FirstMissing(values[1..])
      case None => None
      case Some(i) => Some(i + 1)
  }

  /** The message `exitBot` reports for a missing key. */
  function MissingMessage(key: string): (m: string)
    ensures StartsWith(m, "You must add ") && EndsWith(m, " to the config.json")
    ensures |m| == 13 + |key| + 19 && m[13..13 + |key|] == key
  {
    "You must add " + key + " to the config.json"
  }

  /** `useAttachments`: the configured value when truthy, `false` otherwise. */
  function UseAttachments(cfg: ConfigFile): (r: JsValue)
    ensures Truthy(r) == Truthy(cfg.includeAttachments)
    ensures !Truthy(cfg.includeAttachments) ==> r == Bool(false)
    ensures Truthy(cfg.includeAttachments) ==> r == cfg.includeAttachments
  {
    if Truthy(cfg.includeAttachments) then cfg.includeAttachments else Bool(false)
  }

  /** `successMessage`: the configured value when truthy, the fixed sentence
      otherwise; either way the result is truthy. */
  function SuccessMessage(cfg: ConfigFile): (r: JsValue)
    ensures Truthy(r)
    ensures Truthy(cfg.successMessage) ==> r == cfg.successMessage
    ensures !Truthy(cfg.successMessage) ==> r == Str(DefaultSuccessMessage)
  {
    if Truthy(cfg.successMessage) then cfg.successMessage else Str(DefaultSuccessMessage)
  }

  /** `issueLink`: the GitHub issues endpoint of the configured repository. */
  function IssueLink(gitUser: JsValue, gitRepo: JsValue): (link: string)
    ensures StartsWith(link, IssuesPrefix)
    ensures |link| >= |IssuesPrefix| + |IssuesSuffix|
    ensures link[|link| - |IssuesSuffix|..] == IssuesSuffix
  {
    IssuesPrefix + ToString(gitUser) + "/" + ToString(gitRepo) + IssuesSuffix
  }

  /** Recovers user and repository from an issues endpoint, when its middle
      part holds exactly one '/'. */
  function ParseIssueLink(link: string): Option<(string, string)>
  {
    if |link| >= |IssuesPrefix| + |IssuesSuffix| && StartsWith(link, IssuesPrefix)
       && link[|link| - |IssuesSuffix|..] == IssuesSuffix
    then
      var parts := Split(link[|IssuesPrefix|..|link| - |IssuesSuffix|], '/');
      if |parts| == 2 then Some((parts[0], parts[1])) else None
    else None
  }

  /** The endpoint names the configured user and repository: for string
      coordinates without '/', they can be read back from it. */
  lemma IssueLinkRoundTrip(user: string, repo: string)
    requires '/' !in user && '/' !in repo
    ensures ParseIssueLink(IssueLink(Str(user), Str(repo))) == Some((user, repo))
  {
    var link := IssueLink(Str(user), Str(repo));
    assert link == IssuesPrefix + (user + "/" + repo) + IssuesSuffix;
    assert link[|IssuesPrefix|..|link| - |IssuesSuffix|] == user + "/" + repo;
    assert Join([user, repo], '/') == user + "/" + repo by {
      assert Join([user, repo][1..], '/') == repo;
    }
    SplitJoin([user, repo], '/');
  }

  /** Start-up: the five `isSet` checks in order, each stopping the bot with a
      message naming its key; then the defaults and the endpoint. */
  function Startup(cfg: ConfigFile): (r: Result<Settings, string>)
    ensures r.Ok? <==> forall i :: 0 <= i < |RequiredKeys| ==> IsPresent(RequiredValues(cfg)[i])
    ensures r.Err? ==>
      exists i :: 0 <= i < |RequiredKeys| && r.error == MissingMessage(RequiredKeys[i]) &&
        !IsPresent(RequiredValues(cfg)[i]) &&
        forall j :: 0 <= j < i ==> IsPresent(RequiredValues(cfg)[j])
    ensures r.Ok? ==> r.value.issueLink == IssueLink(cfg.gitUser, cfg.gitRepo)
    ensures r.Ok? ==> r.value.exludeUsers == cfg.exludeUsers
    ensures r.Ok? ==> r.value.useAttachments == UseAttachments(cfg)
    ensures r.Ok? ==> r.value.successMessage == SuccessMessage(cfg)
  {
    match FirstMissing(RequiredValues(cfg))
    case Some(i) => Err(MissingMessage(RequiredKeys[i]))
    case None =>
      Ok(Settings(IssueLink(cfg.gitUser, cfg.gitRepo), cfg.exludeUsers,
                  UseAttachments(cfg), SuccessMessage(cfg)))
  }

  /** A missing token is reported first, whatever else is missing; with the
      token present, a missing channel id is reported next. */
  lemma StartupCheckOrder(cfg: ConfigFile)
    ensures !IsPresent(cfg.token) ==> Startup(cfg) == Err(MissingMessage("token"))
    ensures IsPresent(cfg.token) && !IsPresent(cfg.channelId) ==>
      Startup(cfg) == Err(MissingMessage("channelId"))
  {
    var vs := RequiredValues(cfg);
    if IsPresent(cfg.token) && !IsPresent(cfg.channelId) {
      assert vs[1..][0] == cfg.channelId;
      assert FirstMissing(vs[1..]) == Some(0);
    }
  }

  /** With the token and the channel id present, the remaining keys are
      reported in the order gitUser, gitRepo, gitToken. */
  lemma StartupCheckOrderRest(cfg: ConfigFile)
    requires IsPresent(cfg.token) && IsPresent(cfg.channelId)
    ensures !IsPresent(cfg.gitUser) ==> Startup(cfg) == Err(MissingMessage("gitUser"))
    ensures IsPresent(cfg.gitUser) && !IsPresent(cfg.gitRepo) ==>
      Startup(cfg) == Err(MissingMessage("gitRepo"))
    ensures IsPresent(cfg.gitUser) && IsPresent(cfg.gitRepo) && !IsPresent(cfg.gitToken) ==>
      Startup(cfg) == Err(MissingMessage("gitToken"))
  {
    var vs := RequiredValues(cfg);
    assert vs[1..][1..] == vs[2..] && vs[2..][1..] == vs[3..] && vs[3..][1..] == vs[4..];
    assert vs[2..][0] == cfg.gitUser && vs[3..][0] == cfg.gitRepo && vs[4..][0] == cfg.gitToken;
  }
}
