/**
 * The server's websocket handlers (pkg/handlers.go) that decide who may see
 * whom: opening a camera, booting, muting and blocking, a user's own status
 * update with the moderation rules applied, taking back a message and the
 * delivery rules for a direct message; and the merge of the configured and
 * the JWT moderation rules (pkg/moderation_rules.go).
 *
 * Every handler returns the messages it sends, in order, as `Send`s. Random
 * secrets, the server's uptime and the DM history database are parameters.
 */
module Handlers {
  import opened Common
  import opened Messages
  import opened Config
  import JwtRules
  import opened Server

  /* ---------- IsVideoNotAllowed ---------- */

  const ErrNotEnabled := "Their video is not currently enabled."
  const ErrNoPermission := "You do not have permission to view that camera."

  function MutualRequiredError(owner: string): string {
    owner + " has requested that you should share your own camera too before opening theirs."
  }

  /** One refusal condition and the reason it gives. */
  datatype Condition = Condition(holds: bool, error: string)

  /** The four refusal conditions, in the order they are checked. */
  function VideoConditions(cfg: Config, sub: Subscriber, other: Subscriber): seq<Condition>
    reads sub, other
  {
    var ourVideoActive := sub.videoStatus & VideoFlagActive == VideoFlagActive;
    var theirVideoActive := other.videoStatus & VideoFlagActive == VideoFlagActive;
    var theirMutualRequired := other.videoStatus & VideoFlagMutualRequired == VideoFlagMutualRequired;
    var theirVIPRequired := other.videoStatus & VideoFlagOnlyVIP == VideoFlagOnlyVIP;
    [Condition(!theirVideoActive, ErrNotEnabled),
     Condition(theirMutualRequired && !ourVideoActive, MutualRequiredError(other.username)),
     Condition(theirVIPRequired && !sub.IsVIP() && !sub.IsAdmin(), ErrNoPermission),
     Condition((other.Mutes(sub.username) || Blocks(other, sub, cfg.blockableAdmins)) && !sub.IsAdmin(), ErrNoPermission)]
  }

  /** The reason of the first condition that holds, if any. */
  function FirstHit(cs: seq<Condition>): (r: Option<string>)
    ensures r.None? <==> forall i :: 0 <= i < |cs| ==> !cs[i].holds
    ensures r.Some? ==> exists i :: 0 <= i < |cs| && cs[i].holds && cs[i].error == r.value
                          && forall j :: 0 <= j < i ==> !cs[j].holds
  {
    if |cs| == 0 then None
    else if cs[0].holds then Some(cs[0].error)
    else
      var r := FirstHit(cs[1..]);
      if r.Some? then
        var i :| 0 <= i < |cs[1..]| && cs[1..][i].holds && cs[1..][i].error == r.value
                 && forall j :: 0 <= j < i ==> !cs[1..][j].holds;
        assert cs[i + 1] == cs[1..][i];
        assert forall j :: 0 <= j < i + 1 ==> !cs[j].holds by {
          forall j | 0 <= j < i + 1 ensures !cs[j].holds {
            if j > 0 { assert cs[j] == cs[1..][j - 1]; }
          }
        }
        r
      else
        assert forall j :: 1 <= j < |cs| ==> cs[j] == cs[1..][j - 1];
        r
  }

  /**
   * Server.IsVideoNotAllowed: `(true, "")` when the viewer may open the
   * camera, else `(false, reason)` for the first condition that holds.
   */
  function IsVideoNotAllowed(cfg: Config, sub: Subscriber, other: Subscriber): (r: (bool, string))
    reads sub, other
    ensures r.0 ==> r.1 == ""
    ensures !r.0 ==> r.1 == ErrNotEnabled || r.1 == ErrNoPermission || r.1 == MutualRequiredError(other.username)
  {
    match FirstHit(VideoConditions(cfg, sub, other))
    case None => (true, "")
    case Some(e) => (false, e)
  }

  /** The same decision as a chain of ifs, in the order the conditions are listed. */
  lemma IsVideoNotAllowedChain(cfg: Config, sub: Subscriber, other: Subscriber)
    ensures IsVideoNotAllowed(cfg, sub, other) ==
      if other.videoStatus & VideoFlagActive != VideoFlagActive then (false, ErrNotEnabled)
      else if other.videoStatus & VideoFlagMutualRequired == VideoFlagMutualRequired
              && sub.videoStatus & VideoFlagActive != VideoFlagActive then
        (false, MutualRequiredError(other.username))
      else if other.videoStatus & VideoFlagOnlyVIP == VideoFlagOnlyVIP && !sub.IsVIP() && !sub.IsAdmin() then
        (false, ErrNoPermission)
      else if (other.Mutes(sub.username) || Blocks(other, sub, cfg.blockableAdmins)) && !sub.IsAdmin() then
        (false, ErrNoPermission)
      else (true, "")
  {
    var cs := VideoConditions(cfg, sub, other);
    var r := FirstHit(cs);
    if cs[0].holds {
      assert r == Some(ErrNotEnabled);
    } else if cs[1].holds {
      assert r == Some(cs[1].error);
    } else if cs[2].holds {
      assert r == Some(ErrNoPermission);
    } else if cs[3].holds {
      assert r == Some(ErrNoPermission);
    } else {
      assert r == None;
    }
  }

  /**
   * An admin viewer skips the VIP and the mute/block conditions, but not the
   * camera-off or the mutual-camera condition.
   */
  lemma AdminBypass(cfg: Config, sub: Subscriber, other: Subscriber)
    requires sub.IsAdmin()
    ensures IsVideoNotAllowed(cfg, sub, other).0 <==>
              other.videoStatus & VideoFlagActive == VideoFlagActive
              && (other.videoStatus & VideoFlagMutualRequired != VideoFlagMutualRequired
                  || sub.videoStatus & VideoFlagActive == VideoFlagActive)
  {
    IsVideoNotAllowedChain(cfg, sub, other);
  }

  /** A refusal always gives a reason, and an allowed open never does. */
  lemma IsVideoNotAllowedReason(cfg: Config, sub: Subscriber, other: Subscriber)
    ensures IsVideoNotAllowed(cfg, sub, other).0 <==> IsVideoNotAllowed(cfg, sub, other).1 == ""
  {
    IsVideoNotAllowedChain(cfg, sub, other);
  }

  /* ---------- OnOpen ---------- */

  /** The note an admin gets when opening a camera whose owner booted or muted them. */
  function AdminOpenNotes(sub: Subscriber, other: Subscriber): seq<Send>
    reads sub, other
  {
    if !sub.IsAdmin() then []
    else if other.Boots(sub.username) then
      [Send(sub, Notice("Note: " + other.username + " had booted you off their camera before, and won't be notified of your watch."))]
    else if other.Mutes(sub.username) then
      [Send(sub, Notice("Note: " + other.username + " had muted you before, and won't be notified of your watch."))]
    else []
  }

  /** What OnOpen sends, by the verdict on the viewer and the target. */
  function OpenSends(s: ChatServer, sub: Subscriber, target: string, secret: string): seq<Send>
    reads s, s.Subs(), sub
  {
    var other := s.GetSubscriber(target);
    if other == null then []
    else
      var verdict := IsVideoNotAllowed(s.cfg, sub, other);
      if !verdict.0 then [Send(sub, Notice("Could not open that video: " + verdict.1))]
      else AdminOpenNotes(sub, other)
           + [Send(other, Action(ActionRing).(username := sub.username, openSecret := secret)),
              Send(sub, Action(ActionOpen).(username := other.username, openSecret := secret))]
  }

  /**
   * Server.OnOpen: a viewer asks to open `target`'s camera. Nothing is sent
   * for an unknown user; a refusal is a notice to the viewer; otherwise the
   * target is rung and the viewer gets the open echo, with one shared
   * secret (`secret` stands for the random string).
   */
  method OnOpen(s: ChatServer, sub: Subscriber, target: string, secret: string) returns (sent: seq<Send>)
    ensures sent == OpenSends(s, sub, target, secret)
  {
    var other := s.GetSubscriber(target);
    if other == null {
      return [];
    }
    var verdict := IsVideoNotAllowed(s.cfg, sub, other);
    var ok, reason := verdict.0, verdict.1;
    if !ok {
      return [Send(sub, Notice("Could not open that video: " + reason))];
    }
    sent := [];
    if sub.IsAdmin() {
      if other.Boots(sub.username) {
        sent := sent + [Send(sub, Notice("Note: " + other.username + " had booted you off their camera before, and won't be notified of your watch."))];
      } else if other.Mutes(sub.username) {
        sent := sent + [Send(sub, Notice("Note: " + other.username + " had muted you before, and won't be notified of your watch."))];
      }
    }
    sent := sent + [Send(other, Action(ActionRing).(username := sub.username, openSecret := secret))];
    sent := sent + [Send(sub, Action(ActionOpen).(username := other.username, openSecret := secret))];
  }

  /**
   * A refused or unknown open sends the viewer at most one notice and rings
   * nobody; an allowed one ends by ringing the target and echoing the open
   * to the viewer, both with the same secret, after at most one note.
   */
  lemma OpenSendsShape(s: ChatServer, sub: Subscriber, target: string, secret: string)
    ensures var sent := OpenSends(s, sub, target, secret);
            var other := s.GetSubscriber(target);
            if other == null || !IsVideoNotAllowed(s.cfg, sub, other).0 then
              |sent| <= 1 && forall x :: x in sent ==> x.to == sub && x.msg.action == ActionError
            else
              2 <= |sent| <= 3
              && sent[|sent| - 2].to == other && sent[|sent| - 2].msg.action == ActionRing
              && sent[|sent| - 1].to == sub && sent[|sent| - 1].msg.action == ActionOpen
              && sent[|sent| - 2].msg.openSecret == secret && sent[|sent| - 1].msg.openSecret == secret
              && forall k :: 0 <= k < |sent| - 2 ==> sent[k].to == sub && sent[k].msg.action == ActionError
  {
    var other := s.GetSubscriber(target);
    if other != null && IsVideoNotAllowed(s.cfg, sub, other).0 {
      var notes := AdminOpenNotes(sub, other);
      AdminOpenNotesToViewer(sub, other);
      NotesThenPair(notes, Send(other, Action(ActionRing).(username := sub.username, openSecret := secret)),
                    Send(sub, Action(ActionOpen).(username := other.username, openSecret := secret)));
    }
  }

  /** An admin's note is at most one notice, to the viewer. */
  lemma AdminOpenNotesToViewer(sub: Subscriber, other: Subscriber)
    ensures |AdminOpenNotes(sub, other)| <= 1
    ensures forall x :: x in AdminOpenNotes(sub, other) ==> x.to == sub && x.msg.action == ActionError
  {
  }

  /** Appending two sends to the notes puts them last, with the notes before them. */
  lemma NotesThenPair(notes: seq<Send>, first: Send, second: Send)
    ensures var sent := notes + [first, second];
            |sent| == |notes| + 2 && sent[|sent| - 2] == first && sent[|sent| - 1] == second
            && forall k :: 0 <= k < |sent| - 2 ==> sent[k] == notes[k]
  {
  }

  /* ---------- OnBoot, OnMute, OnBlock, OnBlocklist ---------- */

  function BoolString(b: bool): string {
    if b then "true" else "false"
  }

  /** The notice an admin gets when a user boots them (other users are not told). */
  function BootNotice(s: ChatServer, sub: Subscriber, target: string): seq<Send>
    reads s, s.Subs(), sub
  {
    var other := s.GetSubscriber(target);
    if other != null && other.IsAdmin() then [Send(other, Notice(sub.username + " has booted you off of their camera!"))] else []
  }

  /**
   * Server.OnBoot: `sub` boots (or unboots) `target` off their camera, then
   * everybody gets a fresh Who List. Only `target` enters or leaves the set.
   */
  method OnBoot(s: ChatServer, sub: Subscriber, target: string, boot: bool) returns (sent: seq<Send>)
    modifies sub`booted
    ensures boot ==> sub.booted == old(sub.booted) + {target}
    ensures !boot ==> sub.booted == old(sub.booted) - {target}
    ensures sent == (if boot then old(BootNotice(s, sub, target)) else []) + s.WhoLists()
  {
    var notes: seq<Send> := [];
    if boot {
      // The lookup reads only the session list and names, which booting leaves alone.
      var other := s.GetSubscriber(target);
      if other != null && other.IsAdmin() {
        notes := [Send(other, Notice(sub.username + " has booted you off of their camera!"))];
      }
      sub.booted := sub.booted + {target};
    } else {
      sub.booted := sub.booted - {target};
    }
    var who := s.SendWhoList();
    sent := notes + who;
  }

  /**
   * Server.OnMute: `sub` mutes (or unmutes) `target`; an admin target is told
   * the new mute status, then everybody gets a fresh Who List.
   */
  method OnMute(s: ChatServer, sub: Subscriber, target: string, mute: bool) returns (sent: seq<Send>)
    modifies sub`muted
    ensures mute ==> sub.muted == old(sub.muted) + {target}
    ensures !mute ==> sub.muted == old(sub.muted) - {target}
    ensures var other := s.GetSubscriber(target);
            sent == (if other != null && other.IsAdmin()
                     then [Send(other, Notice(sub.username + " has muted you! Your new mute status is: " + BoolString(mute)))]
                     else [])
                    + s.WhoLists()
  {
    if mute {
      sub.muted := sub.muted + {target};
    } else {
      sub.muted := sub.muted - {target};
    }
    sent := [];
    var other := s.GetSubscriber(target);
    if other != null && other.IsAdmin() {
      sent := [Send(other, Notice(sub.username + " has muted you! Your new mute status is: " + BoolString(mute)))];
    }
    var who := s.SendWhoList();
    sent := sent + who;
  }

  const ErrBlockOperator := "You are not allowed to block a chat operator."

  /**
   * Server.OnBlock: `sub` hard-blocks `target`, unless `target` is an online
   * admin, in which case nothing changes and `sub` is told so.
   */
  method OnBlock(s: ChatServer, sub: Subscriber, target: string) returns (sent: seq<Send>)
    modifies sub`blocked
    ensures var other := old(s.GetSubscriber(target));
            if other != null && old(other.IsAdmin()) then
              sub.blocked == old(sub.blocked) && sent == [Send(sub, Notice(ErrBlockOperator))]
            else
              sub.blocked == old(sub.blocked) + {target} && sent == s.WhoLists()
  {
    var other := s.GetSubscriber(target);
    if other != null && other.IsAdmin() {
      return [Send(sub, Notice(ErrBlockOperator))];
    }
    sub.blocked := sub.blocked + {target};
    sent := s.SendWhoList();
  }

  /**
   * Server.OnBlocklist: the website's block list for `sub`; every listed
   * name is added to both the muted and the blocked set.
   */
  method OnBlocklist(s: ChatServer, sub: Subscriber, usernames: seq<string>) returns (sent: seq<Send>)
    modifies sub`muted, sub`blocked
    ensures sub.muted == old(sub.muted) + set n | n in usernames
    ensures sub.blocked == old(sub.blocked) + set n | n in usernames
    ensures sent == s.WhoLists()
  {
    var i := 0;
    while i < |usernames|
      invariant 0 <= i <= |usernames|
      invariant sub.muted == old(sub.muted) + set n | n in usernames[..i]
      invariant sub.blocked == old(sub.blocked) + set n | n in usernames[..i]
    {
      assert usernames[..i + 1] == usernames[..i] + [usernames[i]];
      sub.muted := sub.muted + {usernames[i]};
      sub.blocked := sub.blocked + {usernames[i]};
      i := i + 1;
    }
    assert usernames[..i] == usernames;
    sent := s.SendWhoList();
  }

  /* ---------- OnMe ---------- */

  const DisableCameraNotice := "A chat server moderation rule is currently in place which restricts your ability to share your webcam. Please contact a chat operator for more information."
  const AlwaysNSFWNotice := "A chat server moderation rule is currently in place which forces your camera to stay marked as Explicit. Please contact a chat moderator if you have any questions about this."

  /**
   * The moderation step of OnMe on a requested camera status: with a rule
   * and an active camera, DisableCamera zeroes the status and then
   * CameraAlwaysNSFW adds the NSFW bit if it is missing. The second result
   * says the client must be told its status changed.
   */
  function ForcedVideo(v: VideoStatus, hasRule: bool, disableCamera: bool, alwaysNSFW: bool): (r: (VideoStatus, bool))
    ensures !Has(v, Active) || !hasRule ==> r == (v, false)
    ensures Has(v, Active) && hasRule && alwaysNSFW ==> Has(r.0, NSFW)
    ensures forall f :: f != NSFW && Has(r.0, f) ==> Has(v, f)
    ensures r.1 ==> r.0 != v && Has(r.0, NSFW)
  {
    if v & VideoFlagActive != VideoFlagActive || !hasRule then (v, false)
    else
      var w := if disableCamera then 0 else v;
      if alwaysNSFW && w & VideoFlagNSFW != VideoFlagNSFW then (WithNSFW(w), true) else (w, false)
  }

  function WithNSFW(v: VideoStatus): VideoStatus {
    v | VideoFlagNSFW
  }

  /** Moderation applies only when the Active bit is requested and a rule exists. */
  lemma ForcedVideoInactive(v: VideoStatus, hasRule: bool, disableCamera: bool, alwaysNSFW: bool)
    requires !Has(v, Active) || !hasRule
    ensures ForcedVideo(v, hasRule, disableCamera, alwaysNSFW) == (v, false)
  {
  }

  /** DisableCamera runs first: the result is 0, or just the NSFW bit when the camera is also forced explicit. */
  lemma ForcedVideoDisabled(v: VideoStatus, alwaysNSFW: bool)
    requires Has(v, Active)
    ensures ForcedVideo(v, true, true, alwaysNSFW) == (if alwaysNSFW then (VideoFlagNSFW, true) else (0, false))
  {
  }

  /**
   * CameraAlwaysNSFW on its own sets the NSFW flag and keeps every other
   * flag.
   */
  lemma ForcedVideoNSFW(v: VideoStatus, f: Flag)
    requires Has(v, Active)
    ensures Has(ForcedVideo(v, true, false, true).0, f) <==> f == NSFW || Has(v, f)
  {
    if v & VideoFlagNSFW == VideoFlagNSFW {
      assert ForcedVideo(v, true, false, true).0 == v;
    } else {
      assert ForcedVideo(v, true, false, true).0 == v | Bit(NSFW);
      SetFlag(v, NSFW, f);
    }
  }

  /** The client is told its status was forced only when the NSFW flag was missing. */
  lemma ForcedVideoReflects(v: VideoStatus)
    requires Has(v, Active)
    ensures ForcedVideo(v, true, false, true).1 <==> !Has(v, NSFW)
  {
  }

  /** The chat status stored for a request: only an admin may be "hidden"; others become "away". */
  function StoredChatStatus(isAdmin: bool, requested: string): (r: string)
    ensures r == "hidden" ==> isAdmin
    ensures requested != "hidden" ==> r == requested
    ensures !isAdmin && requested == "hidden" ==> r == "away"
  {
    if !isAdmin && requested == "hidden" then "away" else requested
  }

  /**
   * The fake presence an admin's hidden toggle produces: an exit when going
   * hidden, a join when coming back, nothing otherwise.
   */
  function FakePresence(isAdmin: bool, current: string, requested: string): (r: Option<string>)
    ensures r.Some? <==> isAdmin && (current == "hidden") != (requested == "hidden")
    ensures r == Some(PresenceExited) <==> isAdmin && current != "hidden" && requested == "hidden"
  {
    if !isAdmin then None
    else if current != "hidden" && requested == "hidden" then Some(PresenceExited)
    else if current == "hidden" && requested != "hidden" then Some(PresenceJoined)
    else None
  }

  /** What OnMe reads of the user's moderation rule: whether there is one, and its two camera flags. */
  function CameraRule(cfg: Config, username: string): (bool, bool, bool)
    reads cfg.moderationRules
  {
    var rule := GetModerationRule(cfg, username);
    (rule.Some?, rule.Some? && rule.value.disableCamera, rule.Some? && rule.value.cameraAlwaysNSFW)
  }

  /** The broadcast an admin's hidden toggle makes, if any. */
  function PresenceSends(s: ChatServer, sub: Subscriber, requested: string, sinceStart: int): seq<Send>
    reads s, s.Subs(), sub
  {
    match FakePresence(sub.IsAdmin(), sub.chatStatus, requested)
    case None => []
    case Some(text) => s.BroadcastSends(Action(ActionPresence).(username := sub.username, message := text), sinceStart)
  }

  /** The ChatServer notices and the cut the moderation step sends, in order. */
  function ModerationSends(sub: Subscriber, v: VideoStatus, hasRule: bool, disableCamera: bool, alwaysNSFW: bool): seq<Send>
  {
    if v & VideoFlagActive != VideoFlagActive || !hasRule then []
    else
      (if disableCamera then [Send(sub, Action(ActionCut)), Send(sub, Notice(DisableCameraNotice))] else [])
      + (if ForcedVideo(v, hasRule, disableCamera, alwaysNSFW).1 then [Send(sub, Notice(AlwaysNSFWNotice))] else [])
  }

  /**
   * Server.OnMe: a user reports their camera status, chat status and DND
   * flag. The configured moderation rule is applied to the camera status,
   * an admin's hidden toggle fakes a presence broadcast, the new state is
   * stored, everybody gets a fresh Who List, and a forced status is
   * reflected back. `sinceStart` is the server's uptime.
   */
  method OnMe(s: ChatServer, sub: Subscriber, msg: Message, sinceStart: int) returns (sent: seq<Send>)
    modifies sub`videoStatus, sub`chatStatus, sub`dnd
    ensures var (hasRule, disableCamera, alwaysNSFW) := old(CameraRule(s.cfg, sub.username));
            sub.videoStatus == ForcedVideo(msg.videoStatus, hasRule, disableCamera, alwaysNSFW).0
    ensures sub.chatStatus == StoredChatStatus(old(sub.IsAdmin()), msg.chatStatus)
    ensures sub.dnd == msg.dnd
    ensures var (hasRule, disableCamera, alwaysNSFW) := old(CameraRule(s.cfg, sub.username));
            sent == ModerationSends(sub, msg.videoStatus, hasRule, disableCamera, alwaysNSFW)
                    + old(PresenceSends(s, sub, msg.chatStatus, sinceStart))
                    + s.WhoLists()
                    + (if ForcedVideo(msg.videoStatus, hasRule, disableCamera, alwaysNSFW).1
                       then [Send(sub, Action(ActionMe).(username := sub.username, videoStatus := sub.videoStatus))] else [])
  {
    var notes, reflect := StoreMe(s, sub, msg, sinceStart);
    var who := s.SendWhoList();
    sent := notes + who;
    if reflect {
      sent := sent + [Send(sub, Action(ActionMe).(username := sub.username, videoStatus := sub.videoStatus))];
    }
  }

  /**
   * The first half of OnMe, up to the stored state: moderation, the hidden
   * toggle's fake presence, and the new camera status, chat status and DND flag.
   */
  method StoreMe(s: ChatServer, sub: Subscriber, msg: Message, sinceStart: int) returns (sent: seq<Send>, reflect: bool)
    modifies sub`videoStatus, sub`chatStatus, sub`dnd
    ensures var (hasRule, disableCamera, alwaysNSFW) := old(CameraRule(s.cfg, sub.username));
            (sub.videoStatus, reflect) == ForcedVideo(msg.videoStatus, hasRule, disableCamera, alwaysNSFW)
            && sent == ModerationSends(sub, msg.videoStatus, hasRule, disableCamera, alwaysNSFW)
                       + old(PresenceSends(s, sub, msg.chatStatus, sinceStart))
    ensures sub.chatStatus == StoredChatStatus(old(sub.IsAdmin()), msg.chatStatus)
    ensures sub.dnd == msg.dnd
  {
    ghost var presenceSends := PresenceSends(s, sub, msg.chatStatus, sinceStart);
    var (hasRule, disableCamera, alwaysNSFW) := CameraRule(s.cfg, sub.username);
    var video, moderation;
    video, reflect, moderation := ModerateVideo(sub, msg.videoStatus, hasRule, disableCamera, alwaysNSFW);
    var chatStatus, presence := HiddenToggle(sub.IsAdmin(), sub.chatStatus, msg.chatStatus);
    var note: seq<Send> := [];
    if presence.Some? {
      note := s.Broadcast(Action(ActionPresence).(username := sub.username, message := presence.value), sinceStart);
    }
    assert note == presenceSends;
    sent := moderation + note;
    sub.videoStatus := video;
    sub.chatStatus := chatStatus;
    sub.dnd := msg.dnd;
  }

  /**
   * The moderation step of OnMe, given the user's rule: the status to store,
   * whether to reflect it back, and the notices sent.
   */
  method ModerateVideo(sub: Subscriber, requested: VideoStatus, hasRule: bool, disableCamera: bool, alwaysNSFW: bool)
    returns (video: VideoStatus, reflect: bool, sent: seq<Send>)
    ensures (video, reflect) == ForcedVideo(requested, hasRule, disableCamera, alwaysNSFW)
    ensures sent == ModerationSends(sub, requested, hasRule, disableCamera, alwaysNSFW)
  {
    reflect := false;
    video := requested;
    sent := [];
    if video & VideoFlagActive == VideoFlagActive && hasRule {
      if disableCamera {
        sent := sent + [Send(sub, Action(ActionCut)), Send(sub, Notice(DisableCameraNotice))];
        video := 0;
      }
      if alwaysNSFW && !(video & VideoFlagNSFW == VideoFlagNSFW) {
        video := WithNSFW(video);
        reflect := true;
        sent := sent + [Send(sub, Notice(AlwaysNSFWNotice))];
      }
    }
  }

  /**
   * The chat-status step of OnMe: the status to store (only admins may be
   * hidden) and the fake presence an admin's hidden toggle announces.
   */
  method HiddenToggle(isAdmin: bool, current: string, requested: string)
    returns (chatStatus: string, presence: Option<string>)
    ensures chatStatus == StoredChatStatus(isAdmin, requested)
    ensures presence == FakePresence(isAdmin, current, requested)
  {
    chatStatus := requested;
    presence := None;
    if isAdmin {
      if current != "hidden" && chatStatus == "hidden" {
        presence := Some(PresenceExited);
      } else if current == "hidden" && chatStatus != "hidden" {
        presence := Some(PresenceJoined);
      }
    } else if chatStatus == "hidden" {
      chatStatus := "away";
    }
  }

  /* ---------- OnTakeback ---------- */

  const ErrNotYourMessage := "That is not your message to take back."

  /**
   * Whether a takeback is allowed: admins may take back anything; others
   * only a message of this session or one just removed from their DM history.
   */
  predicate TakebackPermitted(sub: Subscriber, messageID: int, wasRemovedFromHistory: bool)
    reads sub
  {
    sub.IsAdmin() || messageID in sub.messageIDs || wasRemovedFromHistory
  }

  /**
   * Server.OnTakeback: broadcast the takeback when it is permitted, else
   * refuse with a notice. `wasRemovedFromHistory` is the DM history
   * database's answer.
   */
  method OnTakeback(s: ChatServer, sub: Subscriber, messageID: int, wasRemovedFromHistory: bool, sinceStart: int)
    returns (sent: seq<Send>)
    ensures !TakebackPermitted(sub, messageID, wasRemovedFromHistory) ==> sent == [Send(sub, Notice(ErrNotYourMessage))]
    ensures TakebackPermitted(sub, messageID, wasRemovedFromHistory) ==>
              sent == s.BroadcastSends(Action(ActionTakeback).(messageID := messageID), sinceStart)
  {
    if sub.jwtClaims.None? || !sub.jwtClaims.value.isAdmin {
      var ok := messageID in sub.messageIDs;
      if !ok {
        if !wasRemovedFromHistory {
          return [Send(sub, Notice(ErrNotYourMessage))];
        }
      }
    }
    sent := s.Broadcast(Action(ActionTakeback).(messageID := messageID), sinceStart);
  }

  /** A non-admin's takeback of a message that is not theirs never reaches anyone else. */
  lemma TakebackOfOthersRefused(sub: Subscriber, messageID: int)
    requires !sub.IsAdmin() && messageID !in sub.messageIDs
    ensures TakebackPermitted(sub, messageID, true)
    ensures !TakebackPermitted(sub, messageID, false)
  {
  }

  /* ---------- Direct messages (the DM branch of OnMessage) ---------- */

  /**
   * The recipient's part of a DM: what happens after the echo to the
   * sender. `channel` is the "@name" the sender addressed; `message` is
   * already re-addressed to "@sender".
   */
  function DMDelivery(s: ChatServer, sub: Subscriber, channel: string, message: Message): seq<Send>
    reads s, s.Subs(), sub
  {
    var rcpt := s.GetSubscriber(TrimPrefix(channel, "@"));
    if rcpt == null then [Send(sub, Notice("Could not deliver your message: " + channel + " appears not to be online."))]
    else if rcpt.Mutes(sub.username) && !sub.IsAdmin() then []
    else if sub.Mutes(rcpt.username) && !sub.IsAdmin() then
      [Send(sub, Notice("You have muted " + rcpt.username + " and so your message has not been sent."))]
    else if Blocks(sub, rcpt, s.cfg.blockableAdmins) then []
    else s.SendToSends(channel, message)
  }

  /** The DM as delivered: the sender's own echo, then the recipient's part. */
  function DMSends(s: ChatServer, sub: Subscriber, channel: string, message: Message): seq<Send>
    reads s, s.Subs(), sub
  {
    s.SendToSends(sub.username, message) + DMDelivery(s, sub, channel, message.(channel := "@" + sub.username))
  }

  /**
   * The DM branch of Server.OnMessage: echo to the sender, then deliver to
   * the recipient unless they are offline, have muted a non-admin sender,
   * are muted by a non-admin sender, or either blocks the other.
   */
  method SendDirectMessage(s: ChatServer, sub: Subscriber, channel: string, message: Message) returns (sent: seq<Send>)
    ensures sent == DMSends(s, sub, channel, message)
  {
    var echo, _ := s.SendTo(sub.username, message);
    sent := echo;
    var msg := message.(channel := "@" + sub.username);
    var rcpt := s.GetSubscriber(TrimPrefix(channel, "@"));
    if rcpt == null {
      sent := sent + [Send(sub, Notice("Could not deliver your message: " + channel + " appears not to be online."))];
      return;
    } else if rcpt.Mutes(sub.username) && !sub.IsAdmin() {
      return;
    }
    if sub.Mutes(rcpt.username) && !sub.IsAdmin() {
      sent := sent + [Send(sub, Notice("You have muted " + rcpt.username + " and so your message has not been sent."))];
      return;
    }
    if Blocks(sub, rcpt, s.cfg.blockableAdmins) {
      return;
    }
    var delivered, err := s.SendTo(channel, msg);
    sent := sent + delivered;
    if err {
      // SendTo found the recipient a moment ago, so this cannot happen here
      sent := sent + [Send(sub, Notice("Your message could not be delivered: " + TrimPrefix(channel, "@") + " is not online"))];
    }
  }

  /**
   * The recipient of a DM receives it exactly when they do not mute a
   * non-admin sender, are not muted by a non-admin sender, and no blocking
   * stands between them.
   */
  lemma DMReachesRecipientIff(s: ChatServer, sub: Subscriber, channel: string, message: Message, rcpt: Subscriber)
    requires rcpt == s.GetSubscriber(TrimPrefix(channel, "@")) && rcpt != sub
    requires rcpt.username != TrimPrefix(sub.username, "@")
    ensures (exists x :: x in DMSends(s, sub, channel, message) && x.to == rcpt) <==>
              !(rcpt.Mutes(sub.username) && !sub.IsAdmin())
              && !(sub.Mutes(rcpt.username) && !sub.IsAdmin())
              && !Blocks(sub, rcpt, s.cfg.blockableAdmins)
  {
    var name := TrimPrefix(channel, "@");
    var echo := s.SendToSends(sub.username, message);
    var msg := message.(channel := "@" + sub.username);
    var rest := DMDelivery(s, sub, channel, msg);
    forall x | x in echo ensures x.to != rcpt {
      NamedMembers(s.subscribers, TrimPrefix(sub.username, "@"), Relayed(message), x);
    }
    NamedMembers(s.subscribers, name, Relayed(msg), Send(rcpt, Relayed(msg)));
    if exists x :: x in DMSends(s, sub, channel, message) && x.to == rcpt {
      var x :| x in DMSends(s, sub, channel, message) && x.to == rcpt;
      assert x in rest;
    }
  }

  /* ---------- Subscriber.GetModerationRule ---------- */

  /** The rule flags the JWT merge can set. */
  datatype RuleFlags = RuleFlags(cameraAlwaysNSFW: bool, noVideo: bool, noBroadcast: bool)

  function FlagsOf(r: ModerationRule): RuleFlags
    reads r
  {
    RuleFlags(r.cameraAlwaysNSFW, r.noVideo, r.noBroadcast)
  }

  /** The flags after applying the JWT rules in order: each rule only sets flags. */
  function MergeJwt(f: RuleFlags, rules: seq<JwtRules.Rule>): (r: RuleFlags)
    ensures FlagsLeq(f, r)
  {
    if |rules| == 0 then f
    else
      var g := MergeJwt(f, rules[..|rules| - 1]);
      var rule := rules[|rules| - 1];
      RuleFlags(g.cameraAlwaysNSFW || JwtRules.IsRedCamRule(rule),
                g.noVideo || JwtRules.IsNoVideoRule(rule),
                g.noBroadcast || JwtRules.IsNoBroadcastRule(rule))
  }

  /**
   * The merge in terms of the JWT rule predicates: a flag ends up set iff it
   * was set before or some rule satisfies its predicate. So `redcam` sets
   * CameraAlwaysNSFW, and `novideo` sets both NoVideo and NoBroadcast.
   */
  lemma {:induction false} MergeJwtEnabled(f: RuleFlags, rules: seq<JwtRules.Rule>)
    ensures MergeJwt(f, rules).cameraAlwaysNSFW == (f.cameraAlwaysNSFW || JwtRules.Enabled(rules, JwtRules.RedCamKey))
    ensures MergeJwt(f, rules).noVideo == (f.noVideo || JwtRules.Enabled(rules, JwtRules.NoVideoKey))
    ensures MergeJwt(f, rules).noBroadcast == (f.noBroadcast || JwtRules.Enabled(rules, JwtRules.NoBroadcastKey))
  {
    if |rules| > 0 {
      var prefix := rules[..|rules| - 1];
      var last := rules[|rules| - 1];
      MergeJwtEnabled(f, prefix);
      assert rules == prefix + [last];
      JwtRules.EnabledSnoc(prefix, last, JwtRules.RedCamKey);
      JwtRules.EnabledSnoc(prefix, last, JwtRules.NoVideoKey);
      JwtRules.EnabledSnoc(prefix, last, JwtRules.NoBroadcastKey);
    }
  }

  predicate FlagsLeq(a: RuleFlags, b: RuleFlags) {
    (a.cameraAlwaysNSFW ==> b.cameraAlwaysNSFW) && (a.noVideo ==> b.noVideo) && (a.noBroadcast ==> b.noBroadcast)
  }

  /** The merge never clears a flag, and more JWT rules never set fewer flags. */
  lemma MergeJwtMonotone(f: RuleFlags, g: RuleFlags, rules: seq<JwtRules.Rule>, more: seq<JwtRules.Rule>)
    requires FlagsLeq(f, g)
    ensures FlagsLeq(f, MergeJwt(f, rules))
    ensures FlagsLeq(MergeJwt(f, rules), MergeJwt(g, rules + more))
  {
    MergeJwtEnabled(f, rules);
    MergeJwtEnabled(g, rules + more);
    forall k: JwtRules.Key | JwtRules.Enabled(rules, k) ensures JwtRules.Enabled(rules + more, k) {
      var r :| r in rules && JwtRules.Satisfies(r, k);
      assert r in rules + more;
    }
  }

  function JwtRulesOf(sub: Subscriber): seq<JwtRules.Rule>
    reads sub
  {
    if sub.jwtClaims.Some? then sub.jwtClaims.value.rules else []
  }

  /** The rule objects the merge may write: the configured rule for the user, if any. */
  function MergeFrame(cfg: Config, username: string): set<ModerationRule> {
    var found := GetModerationRule(cfg, username);
    if found.Some? then {found.value} else {}
  }

  /**
   * Subscriber.GetModerationRule: start from the configured rule for the
   * user (or a fresh empty one) and set the flags the user's JWT rules
   * call for. The configured rule is updated in place, so the JWT flags
   * stay in the configuration.
   */
  method MergedModerationRule(cfg: Config, sub: Subscriber) returns (rule: ModerationRule)
    modifies MergeFrame(cfg, sub.username)
    ensures var found := GetModerationRule(cfg, sub.username);
            if found.Some? then
              rule == found.value && FlagsOf(rule) == MergeJwt(old(FlagsOf(found.value)), JwtRulesOf(sub))
            else
              fresh(rule) && rule.username == "" && !rule.disableCamera
              && FlagsOf(rule) == MergeJwt(RuleFlags(false, false, false), JwtRulesOf(sub))
    ensures rule.disableCamera == old(if rule in MergeFrame(cfg, sub.username) then rule.disableCamera else false)
  {
    var found := GetModerationRule(cfg, sub.username);
    if found.Some? {
      rule := found.value;
    } else {
      rule := new ModerationRule("");
    }
    ghost var start := FlagsOf(rule);
    var rules := JwtRulesOf(sub);
    var i := 0;
    while i < |rules|
      invariant 0 <= i <= |rules|
      invariant FlagsOf(rule) == MergeJwt(start, rules[..i])
      invariant rule.disableCamera == old(if rule in MergeFrame(cfg, sub.username) then rule.disableCamera else false)
    {
      assert rules[..i + 1][..i] == rules[..i];
      if JwtRules.IsRedCamRule(rules[i]) {
        rule.cameraAlwaysNSFW := true;
      }
      if JwtRules.IsNoVideoRule(rules[i]) {
        rule.noVideo := true;
      }
      if JwtRules.IsNoBroadcastRule(rules[i]) {
        rule.noBroadcast := true;
      }
      i := i + 1;
    }
    assert rules[..i] == rules;
  }
}
