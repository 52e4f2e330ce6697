/**
 * The configured webhooks (pkg/webhooks.go): whether one is enabled, the
 * lookup by name, and the checks PostWebhook makes before any HTTP request,
 * which is outside the model.
 */
module Webhooks {
  import opened Common
  import opened Config

  /** The one webhook event the server posts. */
  const WebhookReport := "report"

  /** WebhookEnabled: some entry with the name is enabled (not necessarily the first one). */
  function WebhookEnabled(hooks: seq<WebhookURL>, name: string): (r: bool)
    ensures r <==> exists i :: 0 <= i < |hooks| && hooks[i].name == name && hooks[i].enabled
  {
    if |hooks| == 0 then false
    else if hooks[0].name == name && hooks[0].enabled then true
    else
      var r := WebhookEnabled(hooks[1..], name);
      assert forall i :: 1 <= i < |hooks| ==> hooks[i] == hooks[1..][i - 1];
      r
  }

  /** GetWebhook: the first entry with the name and true, or the zero entry and false. */
  function GetWebhook(hooks: seq<WebhookURL>, name: string): (r: (WebhookURL, bool))
    ensures !r.1 <==> forall i :: 0 <= i < |hooks| ==> hooks[i].name != name
    ensures !r.1 ==> r.0 == WebhookURL("", false, "")
    ensures r.1 ==> exists i :: 0 <= i < |hooks| && hooks[i] == r.0 && r.0.name == name
                                && forall j :: 0 <= j < i ==> hooks[j].name != name
  {
    if |hooks| == 0 then (WebhookURL("", false, ""), false)
    else if hooks[0].name == name then (hooks[0], true)
    else
      var r := GetWebhook(hooks[1..], name);
      assert forall i :: 1 <= i < |hooks| ==> hooks[i] == hooks[1..][i - 1];
      if r.1 then
        var i :| 0 <= i < |hooks[1..]| && hooks[1..][i] == r.0 && r.0.name == name
                 && forall j :: 0 <= j < i ==> hooks[1..][j].name != name;
        assert hooks[i + 1] == r.0;
        r
      else r
  }

  /** An enabled webhook is always found by name. */
  lemma EnabledIsFound(hooks: seq<WebhookURL>, name: string)
    requires WebhookEnabled(hooks, name)
    ensures GetWebhook(hooks, name).1
  {
    var i :| 0 <= i < |hooks| && hooks[i].name == name && hooks[i].enabled;
  }

  /**
   * PostWebhook's checks before the request: the webhook to post to, or
   * the error for an unconfigured name or a disabled first entry. The
   * messages are written without formatting, so "%s" stays in them.
   */
  function PostWebhookTarget(hooks: seq<WebhookURL>, name: string): (r: Result<WebhookURL>)
    ensures r.Ok? <==> GetWebhook(hooks, name).1 && GetWebhook(hooks, name).0.enabled
    ensures r.Ok? ==> r.value.name == name && r.value.enabled && r.value in hooks
    ensures !GetWebhook(hooks, name).1 ==> r == Err("PostWebhook(%s): webhook name %s is not configured")
    ensures GetWebhook(hooks, name).1 && !GetWebhook(hooks, name).0.enabled ==>
              r == Err("PostWebhook(%s): webhook is not enabled")
  {
    var (webhook, ok) := GetWebhook(hooks, name);
    if !ok then Err("PostWebhook(%s): webhook name %s is not configured")
    else if !webhook.enabled then Err("PostWebhook(%s): webhook is not enabled")
    else Ok(webhook)
  }

  /** A post gets past the checks only for an enabled webhook. */
  lemma PostedOnlyWhenEnabled(hooks: seq<WebhookURL>, name: string)
    requires PostWebhookTarget(hooks, name).Ok?
    ensures WebhookEnabled(hooks, name)
  {
    var i :| 0 <= i < |hooks| && hooks[i] == PostWebhookTarget(hooks, name).value;
  }

  /**
   * The converse fails: a disabled first entry hides an enabled second one
   * of the same name, so WebhookEnabled says yes while PostWebhook refuses.
   */
  lemma EnabledButRefused()
    ensures var hooks := [WebhookURL("report", false, "a"), WebhookURL("report", true, "b")];
            WebhookEnabled(hooks, "report") && PostWebhookTarget(hooks, "report").Err?
  {
    var hooks := [WebhookURL("report", false, "a"), WebhookURL("report", true, "b")];
    assert hooks[1].name == "report" && hooks[1].enabled;
    assert GetWebhook(hooks, "report") == (hooks[0], true);
  }

  /** With the default configuration's webhooks the report webhook is configured but disabled. */
  lemma DefaultReportDisabled()
    ensures var hooks := [WebhookURL("report", false, "https://example.com/barertc/report"),
                          WebhookURL("profile", false, "https://example.com/barertc/user-profile")];
            !WebhookEnabled(hooks, WebhookReport) && GetWebhook(hooks, WebhookReport).1
            && PostWebhookTarget(hooks, WebhookReport) == Err("PostWebhook(%s): webhook is not enabled")
  {
    var hooks := [WebhookURL("report", false, "https://example.com/barertc/report"),
                  WebhookURL("profile", false, "https://example.com/barertc/user-profile")];
    assert GetWebhook(hooks, WebhookReport) == (hooks[0], true);
    assert hooks[1].name != WebhookReport;
  }
}
