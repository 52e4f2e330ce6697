/**
 * The server's settings (pkg/config/config.go): the parts of the settings
 * file the modelled server logic consults, the lookups by channel ID and by
 * username, the built-in defaults and the format-version migration.
 */
module Config {
  import opened Common

  /** The settings-file format version this build writes. */
  const CurrentVersion: int := 14

  /** A default public chat room. */
  datatype Channel = Channel(
    id: string,
    name: string,
    vip: bool,                    // for VIP members (and operators) only
    permitPhotos: bool,
    welcomeMessages: seq<string>,
    echoMessagesOnJoin: nat)      // how many recent messages to echo to a joining user

  datatype WebhookURL = WebhookURL(name: string, enabled: bool, url: string)

  datatype Logging = Logging(enabled: bool, directory: string, channels: seq<string>, usernames: seq<string>)

  /** A keyword filter; its phrases are regular expressions, matched outside this model. */
  datatype MessageFilter = MessageFilter(
    enabled: bool,
    publicChannels: bool,
    privateChannels: bool,
    keywordPhrases: seq<string>,
    censorMessage: bool,
    forwardMessage: bool,
    reportMessage: bool,
    chatServerResponse: string)

  /**
   * A moderation rule for one user. The server hands out pointers to the
   * configured rules and callers set flags through them, so it is an object.
   */
  class ModerationRule {
    const username: string
    var cameraAlwaysNSFW: bool
    var disableCamera: bool
    var noVideo: bool
    var noBroadcast: bool

    /** An empty rule: no flag set. */
    constructor (username: string)
      ensures this.username == username
      ensures !cameraAlwaysNSFW && !disableCamera && !noVideo && !noBroadcast
    {
      this.username := username;
      cameraAlwaysNSFW := false;
      disableCamera := false;
      noVideo := false;
      noBroadcast := false;
    }
  }

  datatype Config = Config(
    version: int,
    jwtEnabled: bool,
    jwtStrict: bool,
    landingPageURL: string,
    permitNSFW: bool,
    blockableAdmins: bool,
    useXForwardedFor: bool,
    publicChannels: seq<Channel>,
    webhookURLs: seq<WebhookURL>,
    vipMutuallySecret: bool,
    messageFilters: seq<MessageFilter>,
    moderationRules: seq<ModerationRule>,
    logging: Logging)

  /** Config.GetChannel: the first channel with that ID, or nothing. */
  function GetChannel(c: Config, id: string): (r: Option<Channel>)
    ensures r.None? <==> forall i :: 0 <= i < |c.publicChannels| ==> c.publicChannels[i].id != id
    ensures r.Some? ==> exists i :: 0 <= i < |c.publicChannels| && c.publicChannels[i] == r.value
                          && r.value.id == id
                          && forall j :: 0 <= j < i ==> c.publicChannels[j].id != id
  {
    FirstChannel(c.publicChannels, id)
  }

  function FirstChannel(chans: seq<Channel>, id: string): (r: Option<Channel>)
    ensures r.None? <==> forall i :: 0 <= i < |chans| ==> chans[i].id != id
    ensures r.Some? ==> exists i :: 0 <= i < |chans| && chans[i] == r.value && r.value.id == id
                          && forall j :: 0 <= j < i ==> chans[j].id != id
  {
    if |chans| == 0 then None
    else if chans[0].id == id then Some(chans[0])
    else
      var r := FirstChannel(chans[1..], id);
      assert r.Some? ==> exists i :: 0 <= i < |chans[1..]| && chans[1..][i] == r.value
                           && forall j :: 0 <= j < i ==> chans[1..][j].id != id;
      if r.Some? then
        var i :| 0 <= i < |chans[1..]| && chans[1..][i] == r.value
                 && forall j :: 0 <= j < i ==> chans[1..][j].id != id;
        assert chans[i + 1] == r.value;
        assert forall j :: 0 <= j < i + 1 ==> chans[j].id != id by {
          forall j | 0 <= j < i + 1 ensures chans[j].id != id {
            if j > 0 { assert chans[j] == chans[1..][j - 1]; }
          }
        }
        r
      else r
  }

  /** Config.GetModerationRule: the first rule for that username, or nil. */
  function GetModerationRule(c: Config, username: string): (r: Option<ModerationRule>)
    ensures r.None? <==> forall i :: 0 <= i < |c.moderationRules| ==> c.moderationRules[i].username != username
    ensures r.Some? ==> exists i :: 0 <= i < |c.moderationRules| && c.moderationRules[i] == r.value
                          && r.value.username == username
                          && forall j :: 0 <= j < i ==> c.moderationRules[j].username != username
  {
    FirstRule(c.moderationRules, username)
  }

  function FirstRule(rules: seq<ModerationRule>, username: string): (r: Option<ModerationRule>)
    ensures r.None? <==> forall i :: 0 <= i < |rules| ==> rules[i].username != username
    ensures r.Some? ==> exists i :: 0 <= i < |rules| && rules[i] == r.value && r.value.username == username
                          && forall j :: 0 <= j < i ==> rules[j].username != username
  {
    if |rules| == 0 then None
    else if rules[0].username == username then Some(rules[0])
    else
      var r := FirstRule(rules[1..], username);
      if r.Some? then
        var i :| 0 <= i < |rules[1..]| && rules[1..][i] == r.value
                 && forall j :: 0 <= j < i ==> rules[1..][j].username != username;
        assert rules[i + 1] == r.value;
        assert forall j :: 0 <= j < i + 1 ==> rules[j].username != username by {
          forall j | 0 <= j < i + 1 ensures rules[j].username != username {
            if j > 0 { assert rules[j] == rules[1..][j - 1]; }
          }
        }
        r
      else r
  }

  /** The three default rooms: Lobby, Off Topic and the VIP room. */
  function DefaultChannels(): (r: seq<Channel>)
    ensures |r| == 3 && r[0].id == "lobby" && r[1].id == "offtopic" && r[2].id == "vip"
    ensures forall i :: 0 <= i < |r| ==> (r[i].vip <==> i == 2)
  {
    [Channel("lobby", "Lobby", false, false,
             ["Welcome to the chat server!", "Please follow the basic rules:\n\n1. Have fun\n2. Be kind"], 0),
     Channel("offtopic", "Off Topic", false, true, ["Welcome to the Off Topic channel!"], 0),
     Channel("vip", "VIPs Only", true, true, ["This channel is only for operators and VIPs."], 0)]
  }

  /**
   * DefaultConfig: the built-in settings. It allocates the one example
   * moderation rule, so it is a method.
   */
  method DefaultConfig() returns (c: Config)
    ensures c.jwtStrict && !c.jwtEnabled && c.landingPageURL == "" && c.version == 0
    ensures c.publicChannels == DefaultChannels()
    ensures GetChannel(c, "vip").Some? && GetChannel(c, "vip").value.vip
    ensures GetChannel(c, "lobby").Some? && !GetChannel(c, "lobby").value.vip
    ensures c.webhookURLs == [WebhookURL("report", false, "https://example.com/barertc/report"),
                              WebhookURL("profile", false, "https://example.com/barertc/user-profile")]
    ensures |c.moderationRules| == 1 && fresh(c.moderationRules[0])
    ensures c.moderationRules[0].username == "example"
    ensures !c.moderationRules[0].cameraAlwaysNSFW && !c.moderationRules[0].disableCamera
    ensures c.logging == Logging(false, "./logs", ["lobby", "offtopic"], [])
    ensures |c.messageFilters| == 1 && !c.messageFilters[0].enabled && c.messageFilters[0].censorMessage
  {
    var example := new ModerationRule("example");
    var filter := MessageFilter(false, true, true,
                                ["\\bswear words\\b", "\\b(swearing|cursing)\\b", "suck my ([^\\s]+)"],
                                true, false, false, "Watch your language.");
    c := Config(
      0, false, false, "", false, false, false,
      DefaultChannels(),
      [WebhookURL("report", false, "https://example.com/barertc/report"),
       WebhookURL("profile", false, "https://example.com/barertc/user-profile")],
      false,
      [filter],
      [example],
      Logging(false, "./logs", ["lobby", "offtopic"], []));
    c := c.(jwtStrict := true);
  }

  /**
   * The version step of LoadSettings on a decoded settings file: an outdated
   * or newer version is replaced by the current one and the file is to be
   * re-saved; nothing else changes.
   */
  function Migrate(c: Config): (r: (Config, bool))
    ensures r.0.version == CurrentVersion
    ensures r.1 <==> c.version != CurrentVersion
    ensures r.0.(version := c.version) == c
  {
    if c.version != CurrentVersion then (c.(version := CurrentVersion), true) else (c, false)
  }

  /** Loading a migrated file again asks for no further rewrite and changes nothing. */
  lemma MigrateIdempotent(c: Config)
    ensures Migrate(Migrate(c).0) == (Migrate(c).0, false)
  {
  }
}
