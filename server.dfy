/**
 * The chat server's roster (pkg/subscriber.go): the connected sessions,
 * their boot, mute and block sets, the lookup by username, username
 * de-duplication, message fan-out and the per-viewer Who's Online list.
 *
 * Sending a message over a socket is an outbound event: the methods return
 * the sequence of `Send`s they perform, in order, instead of queueing them.
 * The server's subscriber map is a sequence here; its order is the order in
 * which the model iterates it (Go's map order is unspecified).
 */
module Server {
  import opened Common
  import opened Messages
  import opened Config
  import JwtRules

  /** The JWT claims the modelled logic reads. */
  datatype Claims = Claims(isAdmin: bool, vip: bool, nick: string, rules: seq<JwtRules.Rule>)

  /** A connected chat session. */
  class Subscriber {
    var username: string
    var chatStatus: string
    var videoStatus: VideoStatus
    var dnd: bool
    var jwtClaims: Option<Claims>
    var authenticated: bool
    var booted: set<string>   // usernames booted off this user's camera
    var blocked: set<string>  // usernames this user hard-blocks
    var muted: set<string>    // usernames this user has muted
    var unblockable: bool     // an admin's override set by /unmute-all
    var messageIDs: set<int>  // IDs of the messages this session posted
    var log: bool             // sticky "this user is being logged" flag

    predicate IsAdmin()
      reads this
    {
      jwtClaims.Some? && jwtClaims.value.isAdmin
    }

    predicate IsVIP()
      reads this
    {
      jwtClaims.Some? && jwtClaims.value.vip
    }

    /** Subscriber.Boots: `u` was booted off this user's camera. */
    predicate Boots(u: string)
      reads this
    {
      u in booted
    }

    /** Subscriber.Mutes: this user has muted `u`. */
    predicate Mutes(u: string)
      reads this
    {
      u in muted
    }
  }

  /** A message handed to one session's outbound queue. */
  datatype Send = Send(to: Subscriber, msg: Message)

  /** A ChatServer notice (an `error` action from the user "ChatServer"). */
  function Notice(text: string): (m: Message)
    ensures m.action == ActionError && m.username == "ChatServer" && m.message == text
  {
    Action(ActionError).(username := "ChatServer", message := text)
  }

  /**
   * Subscriber.Blocks: blocking between two sessions, in either direction.
   * Admins cannot be blocked unless the server makes them blockable, and an
   * admin with the unblockable override cannot be blocked at all.
   */
  function Blocks(s: Subscriber?, other: Subscriber?, blockableAdmins: bool): (r: bool)
    reads s, other
    ensures r ==> s != null && other != null && (other.username in s.blocked || s.username in other.blocked)
    ensures r ==> blockableAdmins || (!s.IsAdmin() && !other.IsAdmin())
    ensures r ==> !(s.IsAdmin() && s.unblockable) && !(other.IsAdmin() && other.unblockable)
  {
    if s == null || other == null then false
    else if !blockableAdmins && (s.IsAdmin() || other.IsAdmin()) then false
    else if (s.IsAdmin() && s.unblockable) || (other.IsAdmin() && other.unblockable) then false
    else other.username in s.blocked || s.username in other.blocked
  }

  /** Blocking goes both ways, so the relation is symmetric. */
  lemma BlocksSymmetric(a: Subscriber?, b: Subscriber?, blockableAdmins: bool)
    ensures Blocks(a, b, blockableAdmins) == Blocks(b, a, blockableAdmins)
  {
  }

  /**
   * The whole relation, case by case: a missing party never blocks; without
   * blockable admins an admin party never blocks; otherwise there is
   * blocking exactly when one side lists the other and no admin party is
   * unblockable.
   */
  lemma BlocksCases(a: Subscriber?, b: Subscriber?, blockableAdmins: bool)
    ensures a == null || b == null ==> !Blocks(a, b, blockableAdmins)
    ensures a != null && b != null && !blockableAdmins && (a.IsAdmin() || b.IsAdmin()) ==>
              !Blocks(a, b, blockableAdmins)
    ensures a != null && b != null && !a.IsAdmin() && !b.IsAdmin() ==>
              (Blocks(a, b, blockableAdmins) <==> b.username in a.blocked || a.username in b.blocked)
    ensures a != null && b != null && blockableAdmins ==>
              (Blocks(a, b, blockableAdmins) <==>
                 !(a.IsAdmin() && a.unblockable) && !(b.IsAdmin() && b.unblockable)
                 && (b.username in a.blocked || a.username in b.blocked))
  {
  }

  /** The first session in `subs` whose username is `name`, or nil. */
  function FirstNamed(subs: seq<Subscriber>, name: string): (r: Subscriber?)
    reads set x | x in subs
    ensures r == null <==> forall i :: 0 <= i < |subs| ==> subs[i].username != name
    ensures r != null ==> exists i :: 0 <= i < |subs| && subs[i] == r && r.username == name
                            && forall j :: 0 <= j < i ==> subs[j].username != name
  {
    if |subs| == 0 then null
    else if subs[0].username == name then subs[0]
    else
      var r := FirstNamed(subs[1..], name);
      if r != null then
        var i :| 0 <= i < |subs[1..]| && subs[1..][i] == r && r.username == name
                 && forall j :: 0 <= j < i ==> subs[1..][j].username != name;
        assert subs[i + 1] == r;
        assert forall j :: 0 <= j < i + 1 ==> subs[j].username != name by {
          forall j | 0 <= j < i + 1 ensures subs[j].username != name {
            if j > 0 { assert subs[j] == subs[1..][j - 1]; }
          }
        }
        r
      else
        assert forall i :: 0 <= i < |subs| ==> subs[i].username != name by {
          forall i | 0 <= i < |subs| ensures subs[i].username != name {
            if i > 0 { assert subs[i] == subs[1..][i - 1]; }
          }
        }
        r
  }

  /** The sessions of `subs` that are not in `gone`, in their original order. */
  function Keep(subs: seq<Subscriber>, gone: set<Subscriber>): (r: seq<Subscriber>)
    ensures forall i :: 0 <= i < |r| ==> r[i] in subs && r[i] !in gone
    ensures forall i :: 0 <= i < |subs| && subs[i] !in gone ==> subs[i] in r
    ensures |r| <= |subs|
  {
    if |subs| == 0 then []
    else (if subs[0] in gone then [] else [subs[0]]) + Keep(subs[1..], gone)
  }

  /** Removing nothing keeps every session. */
  lemma KeepNothing(subs: seq<Subscriber>)
    ensures Keep(subs, {}) == subs
  {
  }

  /** Removing two sets of sessions one after the other removes their union. */
  lemma {:induction false} KeepTwice(subs: seq<Subscriber>, a: set<Subscriber>, b: set<Subscriber>)
    ensures Keep(Keep(subs, a), b) == Keep(subs, a + b)
  {
    if |subs| > 0 {
      KeepTwice(subs[1..], a, b);
      if subs[0] in a {
        assert Keep(subs, a) == Keep(subs[1..], a);
      } else {
        var kept := Keep(subs, a);
        assert kept == [subs[0]] + Keep(subs[1..], a);
        assert kept[0] == subs[0] && kept[1..] == Keep(subs[1..], a);
        assert Keep(kept, b) == (if subs[0] in b then [] else [subs[0]]) + Keep(kept[1..], b);
      }
    }
  }

  /** Broadcast's recipient filter for one session. */
  predicate Delivers(cfg: Config, sub: Subscriber, sender: Subscriber?, msg: Message)
    reads sub, sender
  {
    sub.authenticated
    && !sub.Mutes(msg.username)
    && !Blocks(sender, sub, cfg.blockableAdmins)   // Blocks is false when the sender is nil
    && !(GetChannel(cfg, msg.channel).Some? && GetChannel(cfg, msg.channel).value.vip
         && !sub.IsVIP() && !sub.IsAdmin())
  }

  /** The sends of one broadcast, in subscriber order. */
  function Fanout(cfg: Config, subs: seq<Subscriber>, sender: Subscriber?, msg: Message): seq<Send>
    reads sender, set x | x in subs
  {
    if |subs| == 0 then []
    else
      var last := subs[|subs| - 1];
      Fanout(cfg, subs[..|subs| - 1], sender, msg) + (if Delivers(cfg, last, sender, msg) then [Send(last, msg)] else [])
  }

  /** A broadcast reaches exactly the sessions that pass the filter, each with the message unchanged. */
  lemma {:induction false} FanoutMembers(cfg: Config, subs: seq<Subscriber>, sender: Subscriber?, msg: Message, x: Send)
    ensures x in Fanout(cfg, subs, sender, msg) <==> x.to in subs && x.msg == msg && Delivers(cfg, x.to, sender, msg)
  {
    if |subs| > 0 {
      FanoutMembers(cfg, subs[..|subs| - 1], sender, msg, x);
      assert subs == subs[..|subs| - 1] + [subs[|subs| - 1]];
    }
  }

  /** Go's time.Duration of 30 seconds, in nanoseconds. */
  const PresenceQuietPeriod: int := 30 * 1000000000

  /** The relayed copy SendTo makes: action, channel, username, message and message ID only. */
  function Relayed(msg: Message): (m: Message)
    ensures m.action == msg.action && m.channel == msg.channel && m.username == msg.username
    ensures m.message == msg.message && m.messageID == msg.messageID
    ensures m.videoStatus == 0 && m.openSecret == "" && m.whoList == []
  {
    Action(msg.action).(channel := msg.channel, username := msg.username, message := msg.message,
                        messageID := msg.messageID)
  }

  /** The sends SendTo makes to the sessions named `name`, in subscriber order. */
  function Named(subs: seq<Subscriber>, name: string, m: Message): seq<Send>
    reads set x | x in subs
  {
    if |subs| == 0 then []
    else
      var last := subs[|subs| - 1];
      Named(subs[..|subs| - 1], name, m) + (if last.username == name then [Send(last, m)] else [])
  }

  lemma {:induction false} NamedMembers(subs: seq<Subscriber>, name: string, m: Message, x: Send)
    ensures x in Named(subs, name, m) <==> x.to in subs && x.to.username == name && x.msg == m
  {
    if |subs| > 0 {
      NamedMembers(subs[..|subs| - 1], name, m, x);
      assert subs == subs[..|subs| - 1] + [subs[|subs| - 1]];
    }
  }

  lemma {:induction false} NamedEmptyIff(subs: seq<Subscriber>, name: string, m: Message)
    ensures Named(subs, name, m) == [] <==> forall i :: 0 <= i < |subs| ==> subs[i].username != name
  {
    if |subs| > 0 {
      NamedEmptyIff(subs[..|subs| - 1], name, m);
      assert forall i :: 0 <= i < |subs| - 1 ==> subs[..|subs| - 1][i] == subs[i];
    }
  }

  /** " N" appended to the original name: UniqueUsername's N-th candidate. */
  function Candidate(orig: string, n: nat): string {
    orig + " " + NatToString(n)
  }

  /** The name UniqueUsername tests on its `counter`-th probe. */
  function Probe(orig: string, counter: nat): string
    requires counter >= 2
  {
    if counter == 2 then orig else Candidate(orig, counter - 1)
  }

  /** Different probes test different names, so the search never revisits one. */
  lemma ProbeInjective(orig: string, a: nat, b: nat)
    requires a >= 2 && b >= 2 && Probe(orig, a) == Probe(orig, b)
    ensures a == b
  {
    if a > 2 && b > 2 {
      var x, y := NatToString(a - 1), NatToString(b - 1);
      assert (orig + " " + x)[|orig| + 1..] == x;
      assert (orig + " " + y)[|orig| + 1..] == y;
      NatToStringInjective(a - 1, b - 1);
    }
  }

  /* ---------- Who's Online list ---------- */

  /**
   * The camera flags a viewer sees for a listed user. A user's own entry is
   * never masked. A VIP-only camera shows as off to every non-VIP viewer.
   * Otherwise, when the listed user booted or muted the viewer, a regular
   * viewer sees the camera off, and an admin viewer sees it with the
   * MutualOpen flag cleared (so opening it will not auto-open the admin's
   * camera to them).
   */
  function MaskedVideo(v: VideoStatus, own: bool, bootsOrMutesViewer: bool, viewerAdmin: bool, viewerVIP: bool): (r: VideoStatus)
    ensures forall f :: Has(r, f) ==> Has(v, f)
    ensures !bootsOrMutesViewer && !(OnlyVIPSet(v) && !viewerVIP) ==> r == v
  {
    if own then v
    else if OnlyVIPSet(v) && !viewerVIP then 0
    else if bootsOrMutesViewer then
      (if viewerAdmin then WithoutMutualOpenOnlyClears(v); WithoutMutualOpen(v) else 0)
    else v
  }

  /** Clearing MutualOpen never turns a flag on. */
  lemma WithoutMutualOpenOnlyClears(v: VideoStatus)
    ensures forall f :: Has(WithoutMutualOpen(v), f) ==> Has(v, f)
  {
    forall f | Has(WithoutMutualOpen(v), f) ensures Has(v, f) {
      WithoutMutualOpenFlags(v, f);
    }
  }

  /** The camera is shown as active to VIP members only. */
  predicate OnlyVIPSet(v: VideoStatus) {
    v & VideoFlagOnlyVIP == VideoFlagOnlyVIP
  }

  function WithoutMutualOpen(v: VideoStatus): VideoStatus {
    v & !VideoFlagMutualOpen
  }

  /** The masking as written: the admin case XOR-toggles MutualOpen instead of clearing it. */
  function MaskedVideoAsWritten(v: VideoStatus, own: bool, bootsOrMutesViewer: bool, viewerAdmin: bool, viewerVIP: bool): VideoStatus {
    if own then v
    else if OnlyVIPSet(v) && !viewerVIP then 0
    else if bootsOrMutesViewer then (if viewerAdmin then ToggledMutualOpen(v) else 0)
    else v
  }

  function ToggledMutualOpen(v: VideoStatus): VideoStatus {
    v ^ VideoFlagMutualOpen
  }

  /** Who sees a camera as off, and who sees it unchanged. */
  lemma MaskedVideoHides(v: VideoStatus, own: bool, boots: bool, viewerAdmin: bool, viewerVIP: bool)
    ensures own ==> MaskedVideo(v, own, boots, viewerAdmin, viewerVIP) == v
    ensures !own && boots && !viewerAdmin ==> MaskedVideo(v, own, boots, viewerAdmin, viewerVIP) == 0
    ensures !own && OnlyVIPSet(v) && !viewerVIP ==> MaskedVideo(v, own, boots, viewerAdmin, viewerVIP) == 0
    ensures !own && !boots && !(OnlyVIPSet(v) && !viewerVIP) ==> MaskedVideo(v, own, boots, viewerAdmin, viewerVIP) == v
  {
  }

  /** An admin viewer the user booted or muted sees every flag except MutualOpen. */
  lemma MaskedVideoForAdmin(v: VideoStatus, viewerVIP: bool, f: Flag)
    requires !(Has(v, OnlyVIP) && !viewerVIP)
    ensures Has(MaskedVideo(v, false, true, true, viewerVIP), f) <==> f != MutualOpen && Has(v, f)
  {
    WithoutMutualOpenFlags(v, f);
  }

  /** Clearing MutualOpen leaves every other flag as it was. */
  lemma WithoutMutualOpenFlags(v: VideoStatus, f: Flag)
    ensures Has(WithoutMutualOpen(v), f) <==> f != MutualOpen && Has(v, f)
  {
  }

  /**
   * The XOR as written sets MutualOpen on a camera that never had it: an
   * active camera (1) that booted an admin shows to that admin as 33.
   */
  lemma MaskedVideoAsWrittenSetsMutualOpen()
    ensures !Has(VideoFlagActive, MutualOpen)
    ensures MaskedVideoAsWritten(VideoFlagActive, false, true, true, false) == 33
    ensures Has(33, MutualOpen)
    ensures !Has(MaskedVideo(VideoFlagActive, false, true, true, false), MutualOpen)
  {
  }

  /** Where the flag was set the XOR does clear it, so the two agree. */
  lemma MaskedVideoAgreesWhenFlagSet(v: VideoStatus, own: bool, boots: bool, viewerAdmin: bool, viewerVIP: bool)
    requires Has(v, MutualOpen)
    ensures MaskedVideoAsWritten(v, own, boots, viewerAdmin, viewerVIP) == MaskedVideo(v, own, boots, viewerAdmin, viewerVIP)
  {
    XorIsClearWhenSet(v);
  }

  lemma XorIsClearWhenSet(v: VideoStatus)
    requires v & VideoFlagMutualOpen == VideoFlagMutualOpen
    ensures ToggledMutualOpen(v) == WithoutMutualOpen(v)
  {
  }

  /** One Who's Online row for `user` as `viewer` sees it. */
  function WhoEntry(cfg: Config, user: Subscriber, viewer: Subscriber): (r: WhoList)
    reads user, viewer
    ensures r.username == user.username && r.status == user.chatStatus && r.dnd == user.dnd
    ensures forall f :: Has(r.video, f) ==> Has(user.videoStatus, f)
    ensures user.username == viewer.username ==> r.video == user.videoStatus
    ensures r.vip ==> user.jwtClaims.Some? && user.jwtClaims.value.vip
    ensures r.operator <==> user.jwtClaims.Some? && user.jwtClaims.value.isAdmin
  {
    WhoList(user.username, if user.jwtClaims.Some? then user.jwtClaims.value.nick else "", user.chatStatus,
            MaskedVideo(user.videoStatus, user.username == viewer.username,
                        user.Boots(viewer.username) || user.Mutes(viewer.username),
                        viewer.IsAdmin(), viewer.IsVIP()),
            user.dnd,
            user.jwtClaims.Some? && user.jwtClaims.value.isAdmin,
            // with VIP.MutuallySecret only VIP viewers see the VIP flags
            user.jwtClaims.Some? && user.jwtClaims.value.vip && (!cfg.vipMutuallySecret || viewer.IsVIP()))
  }

  /** `user` is listed for `viewer`: not hidden and no blocking between them. */
  predicate Visible(cfg: Config, user: Subscriber, viewer: Subscriber)
    reads user, viewer
  {
    user.chatStatus != "hidden" && !Blocks(user, viewer, cfg.blockableAdmins)
  }

  /** The usernames of the authenticated sessions, in order, duplicates kept. */
  function AuthNames(subs: seq<Subscriber>): (r: seq<string>)
    reads set x | x in subs
    ensures forall n :: n in r <==> exists i :: 0 <= i < |subs| && subs[i].authenticated && subs[i].username == n
  {
    if |subs| == 0 then []
    else
      var last := subs[|subs| - 1];
      var r := AuthNames(subs[..|subs| - 1]) + (if last.authenticated then [last.username] else []);
      assert forall i :: 0 <= i < |subs| - 1 ==> subs[..|subs| - 1][i] == subs[i];
      r
  }

  /** The session the name maps to: the last authenticated one with that name. */
  function LastAuth(subs: seq<Subscriber>, name: string): (r: Subscriber?)
    reads set x | x in subs
    ensures r == null <==> forall i :: 0 <= i < |subs| ==> !(subs[i].authenticated && subs[i].username == name)
    ensures r != null ==> r in subs && r.authenticated && r.username == name
  {
    if |subs| == 0 then null
    else
      var last := subs[|subs| - 1];
      assert forall i :: 0 <= i < |subs| - 1 ==> subs[..|subs| - 1][i] == subs[i];
      if last.authenticated && last.username == name then last
      else LastAuth(subs[..|subs| - 1], name)
  }

  /** The rows `viewer` gets for `names`, in the order of `names`. */
  function WhoEntries(cfg: Config, viewer: Subscriber, names: seq<string>, subs: seq<Subscriber>): seq<WhoList>
    reads viewer, set x | x in subs
  {
    if |names| == 0 then []
    else
      WhoEntries(cfg, viewer, names[..|names| - 1], subs) + WhoRowFor(cfg, viewer, LastAuth(subs, names[|names| - 1]))
  }

  lemma WhoEntriesSnoc(cfg: Config, viewer: Subscriber, names: seq<string>, j: nat, subs: seq<Subscriber>)
    requires j < |names|
    ensures WhoEntries(cfg, viewer, names[..j + 1], subs)
            == WhoEntries(cfg, viewer, names[..j], subs) + WhoRowFor(cfg, viewer, LastAuth(subs, names[j]))
  {
    assert names[..j + 1][..j] == names[..j];
  }

  /** The row for one name: none when nobody has it or they are not visible to `viewer`. */
  function WhoRowFor(cfg: Config, viewer: Subscriber, user: Subscriber?): seq<WhoList>
    reads viewer, user
  {
    if user != null && Visible(cfg, user, viewer) then [WhoEntry(cfg, user, viewer)] else []
  }

  /** The usernames of a list of rows. */
  function EntryNames(entries: seq<WhoList>): (r: seq<string>)
    ensures |r| == |entries| && forall k :: 0 <= k < |r| ==> r[k] == entries[k].username
  {
    if |entries| == 0 then [] else EntryNames(entries[..|entries| - 1]) + [entries[|entries| - 1].username]
  }

  /** Every row is a visible, authenticated user from `names`, shown through the masking. */
  lemma {:induction false} WhoEntriesSound(cfg: Config, viewer: Subscriber, names: seq<string>, subs: seq<Subscriber>, k: nat)
    requires k < |WhoEntries(cfg, viewer, names, subs)|
    ensures var e := WhoEntries(cfg, viewer, names, subs)[k];
            var user := LastAuth(subs, e.username);
            e.username in names && user != null && user.authenticated && user.chatStatus != "hidden"
            && !Blocks(user, viewer, cfg.blockableAdmins) && e == WhoEntry(cfg, user, viewer)
  {
    var prefix := names[..|names| - 1];
    var prev := WhoEntries(cfg, viewer, prefix, subs);
    if k < |prev| {
      WhoEntriesSound(cfg, viewer, prefix, subs, k);
      assert forall n :: n in prefix ==> n in names;
    }
  }

  /** Every visible authenticated user named in `names` has a row. */
  lemma {:induction false} WhoEntriesComplete(cfg: Config, viewer: Subscriber, names: seq<string>, subs: seq<Subscriber>, n: string)
    requires n in names
    requires LastAuth(subs, n) != null && Visible(cfg, LastAuth(subs, n), viewer)
    ensures n in EntryNames(WhoEntries(cfg, viewer, names, subs))
  {
    var prefix := names[..|names| - 1];
    var prev := WhoEntries(cfg, viewer, prefix, subs);
    var full := WhoEntries(cfg, viewer, names, subs);
    assert prev == full[..|prev|];
    if n == names[|names| - 1] {
      assert full[|full| - 1].username == n;
      assert EntryNames(full)[|full| - 1] == n;
    } else {
      assert n in prefix by {
        var i :| 0 <= i < |names| && names[i] == n;
        assert prefix[i] == n;
      }
      WhoEntriesComplete(cfg, viewer, prefix, subs, n);
      var k :| 0 <= k < |EntryNames(prev)| && EntryNames(prev)[k] == n;
      assert EntryNames(full)[k] == n;
    }
  }

  /** Rows follow the order of `names`: a sorted name list gives a sorted Who List. */
  lemma {:induction false} WhoEntriesSorted(cfg: Config, viewer: Subscriber, names: seq<string>, subs: seq<Subscriber>)
    requires SortedStrings(names)
    ensures SortedStrings(EntryNames(WhoEntries(cfg, viewer, names, subs)))
  {
    if |names| > 0 {
      var prefix := names[..|names| - 1];
      var last := names[|names| - 1];
      var prev := WhoEntries(cfg, viewer, prefix, subs);
      var full := WhoEntries(cfg, viewer, names, subs);
      WhoEntriesSorted(cfg, viewer, prefix, subs);
      if |full| > |prev| {
        var en := EntryNames(full);
        assert full == prev + [full[|full| - 1]];
        assert en[..|prev|] == EntryNames(prev);
        assert en[|en| - 1] == last;
        forall i, j | 0 <= i < j < |en| ensures LessEq(en[i], en[j]) {
          if j == |en| - 1 {
            WhoEntriesSound(cfg, viewer, prefix, subs, i);
            var p :| 0 <= p < |prefix| && prefix[p] == en[i];
            assert names[p] == en[i];
          } else {
            assert en[i] == EntryNames(prev)[i] && en[j] == EntryNames(prev)[j];
          }
        }
      }
    }
  }

  /** The Who List message for a viewer. */
  function WhoMessage(entries: seq<WhoList>): (m: Message)
    ensures m.action == ActionWhoList && m.whoList == entries
  {
    Action(ActionWhoList).(whoList := entries)
  }

  /** One Who List per authenticated viewer in `viewers`, in order. */
  function WhoSends(cfg: Config, viewers: seq<Subscriber>, names: seq<string>, subs: seq<Subscriber>): seq<Send>
    reads set x | x in viewers, set x | x in subs
  {
    if |viewers| == 0 then []
    else
      var v := viewers[|viewers| - 1];
      WhoSends(cfg, viewers[..|viewers| - 1], names, subs)
      + (if v.authenticated then [Send(v, WhoMessage(WhoEntries(cfg, v, names, subs)))] else [])
  }

  lemma WhoSendsSnoc(cfg: Config, viewers: seq<Subscriber>, i: nat, names: seq<string>, subs: seq<Subscriber>)
    requires i < |viewers|
    ensures WhoSends(cfg, viewers[..i + 1], names, subs)
            == WhoSends(cfg, viewers[..i], names, subs)
               + (if viewers[i].authenticated then [Send(viewers[i], WhoMessage(WhoEntries(cfg, viewers[i], names, subs)))] else [])
  {
    assert viewers[..i + 1][..i] == viewers[..i];
  }

  lemma {:induction false} WhoSendsMembers(cfg: Config, viewers: seq<Subscriber>, names: seq<string>, subs: seq<Subscriber>, x: Send)
    ensures x in WhoSends(cfg, viewers, names, subs) <==>
              x.to in viewers && x.to.authenticated && x.msg == WhoMessage(WhoEntries(cfg, x.to, names, subs))
  {
    if |viewers| > 0 {
      WhoSendsMembers(cfg, viewers[..|viewers| - 1], names, subs, x);
      assert viewers == viewers[..|viewers| - 1] + [viewers[|viewers| - 1]];
    }
  }

  class ChatServer {
    var subscribers: seq<Subscriber>
    const cfg: Config

    /** The sessions, as a set of objects. */
    function Subs(): set<Subscriber>
      reads this
    {
      set x | x in subscribers
    }

    /** Every username in use, authenticated or not. */
    function Usernames(): set<string>
      reads this, Subs()
    {
      set x | x in subscribers :: x.username
    }

    /** Server.GetSubscriber: the first session with that username, or nil. */
    function GetSubscriber(username: string): (r: Subscriber?)
      reads this, Subs()
      ensures r == null <==> username !in Usernames()
      ensures r != null ==> r in subscribers && r.username == username
    {
      FirstNamed(subscribers, username)
    }

    /** Server.DeleteSubscriber: drop the session from the server; nil is ignored. */
    method DeleteSubscriber(sub: Subscriber?)
      modifies this
      ensures subscribers == if sub == null then old(subscribers) else Keep(old(subscribers), {sub})
    {
      if sub == null {
        return;
      }
      subscribers := Keep(subscribers, {sub});
    }

    /**
     * Server.UniqueUsername: the name itself when nobody uses it; otherwise
     * "name N" for the smallest N >= 2 nobody uses, with an error.
     */
    method UniqueUsername(orig: string) returns (r: string, err: bool)
      ensures r !in Usernames()
      ensures err <==> orig in Usernames()
      ensures !err ==> r == orig
      ensures err ==> exists n :: n >= 2 && r == Candidate(orig, n)
                         && forall k :: 2 <= k < n ==> Candidate(orig, k) in Usernames()
    {
      var usernames := Usernames();
      r := orig;
      var counter := 2;
      ghost var seen: seq<string> := [];
      while r in usernames
        invariant counter >= 2 && r == Probe(orig, counter)
        invariant |seen| == counter - 2
        invariant forall k :: 0 <= k < |seen| ==> seen[k] == Probe(orig, k + 2)
        invariant forall x :: x in seen ==> x in usernames
        invariant NoDup(seen)
        decreases |usernames| - |seen|
      {
        forall k | 0 <= k < |seen| ensures seen[k] != r {
          if seen[k] == r { ProbeInjective(orig, k + 2, counter); }
        }
        seen := seen + [r];
        NoDupWithin(seen, usernames);
        r := Candidate(orig, counter);
        counter := counter + 1;
      }
      err := r != orig;
      if counter == 2 {
        assert r == orig && orig !in usernames;
      } else {
        assert orig == seen[0] && seen[0] in seen;
        assert err;
        assert forall k :: 2 <= k < counter - 1 ==> Candidate(orig, k) in usernames by {
          forall k | 2 <= k < counter - 1 ensures Candidate(orig, k) in usernames {
            assert seen[k - 1] == Probe(orig, k + 1);
          }
        }
      }
    }

    /** What Broadcast sends: nothing for a presence message in the first 30 seconds, else the filtered fan-out. */
    function BroadcastSends(msg: Message, sinceStart: int): seq<Send>
      reads this, Subs()
    {
      if sinceStart < PresenceQuietPeriod && msg.action == ActionPresence then []
      else Fanout(cfg, subscribers, GetSubscriber(msg.username), msg)
    }

    /**
     * Server.Broadcast: deliver to every authenticated session that has not
     * muted the sender, has no blocking with the sender and, on a VIP
     * channel, is VIP or an admin. `sinceStart` is the server's uptime.
     */
    method Broadcast(msg: Message, sinceStart: int) returns (sent: seq<Send>)
      ensures sent == BroadcastSends(msg, sinceStart)
    {
      if sinceStart < PresenceQuietPeriod {
        if msg.action == ActionPresence {
          return [];
        }
      }
      var sender := GetSubscriber(msg.username);
      var subs := subscribers;
      sent := [];
      var i := 0;
      while i < |subs|
        invariant 0 <= i <= |subs|
        invariant sent == Fanout(cfg, subs[..i], sender, msg)
      {
        var sub := subs[i];
        assert subs[..i + 1][..i] == subs[..i];
        if !sub.authenticated {
          i := i + 1;
          continue;
        }
        if sub.Mutes(msg.username) {
          i := i + 1;
          continue;
        }
        if sender != null && Blocks(sender, sub, cfg.blockableAdmins) {
          i := i + 1;
          continue;
        }
        var ch := GetChannel(cfg, msg.channel);
        if ch.Some? && ch.value.vip && !sub.IsVIP() && !sub.IsAdmin() {
          i := i + 1;
          continue;
        }
        sent := sent + [Send(sub, msg)];
        i := i + 1;
      }
      assert subs[..i] == subs;
    }

    /** The recipients of a broadcast: the properties the filter promises. */
    lemma BroadcastRecipients(msg: Message, sinceStart: int, x: Send)
      requires x in BroadcastSends(msg, sinceStart)
      ensures x.msg == msg && x.to in subscribers && x.to.authenticated
      ensures !x.to.Mutes(msg.username)
      ensures !Blocks(GetSubscriber(msg.username), x.to, cfg.blockableAdmins)
      ensures GetChannel(cfg, msg.channel).Some? && GetChannel(cfg, msg.channel).value.vip ==>
                x.to.IsVIP() || x.to.IsAdmin()
      ensures !(sinceStart < PresenceQuietPeriod && msg.action == ActionPresence)
    {
      FanoutMembers(cfg, subscribers, GetSubscriber(msg.username), msg, x);
    }

    /** ...and every session that passes the filter does receive it. */
    lemma BroadcastReachesEveryEligible(msg: Message, sinceStart: int, sub: Subscriber)
      requires sub in subscribers && Delivers(cfg, sub, GetSubscriber(msg.username), msg)
      requires !(sinceStart < PresenceQuietPeriod && msg.action == ActionPresence)
      ensures Send(sub, msg) in BroadcastSends(msg, sinceStart)
    {
      FanoutMembers(cfg, subscribers, GetSubscriber(msg.username), msg, Send(sub, msg));
    }

    /** What SendTo sends: a relayed copy to every session with the name, one leading "@" removed. */
    function SendToSends(username: string, msg: Message): seq<Send>
      reads this, Subs()
    {
      Named(subscribers, TrimPrefix(username, "@"), Relayed(msg))
    }

    /** Server.SendTo: deliver to the named user; an error when nobody has that name. */
    method SendTo(username: string, msg: Message) returns (sent: seq<Send>, err: bool)
      ensures sent == SendToSends(username, msg)
      ensures err <==> sent == []
      ensures err <==> TrimPrefix(username, "@") !in Usernames()
    {
      var name := TrimPrefix(username, "@");
      var found := false;
      var subs := subscribers;
      sent := [];
      var i := 0;
      while i < |subs|
        invariant 0 <= i <= |subs|
        invariant sent == Named(subs[..i], name, Relayed(msg))
        invariant found <==> exists j :: 0 <= j < i && subs[j].username == name
      {
        assert subs[..i + 1][..i] == subs[..i];
        if subs[i].username == name {
          found := true;
          sent := sent + [Send(subs[i], Relayed(msg))];
        }
        i := i + 1;
      }
      assert subs[..i] == subs;
      NamedEmptyIff(subs, name, Relayed(msg));
      err := !found;
      if name in Usernames() {
        var x :| x in subscribers && x.username == name;
        NamedMembers(subs, name, Relayed(msg), Send(x, Relayed(msg)));
      }
    }

    /** What SendWhoList sends: each authenticated session gets its own list over the sorted names. */
    function WhoLists(): seq<Send>
      reads this, Subs()
    {
      WhoSends(cfg, subscribers, SortStrings(AuthNames(subscribers)), subscribers)
    }

    /**
     * Server.SendWhoList: collect and sort the authenticated usernames, then
     * build and send every authenticated session its own list, skipping
     * hidden users and blocked pairs and masking camera flags per viewer.
     */
    method SendWhoList() returns (sent: seq<Send>)
      ensures sent == WhoLists()
    {
      var usernames, userSub := SortedAuthenticatedUsers();
      sent := SendEachWhoList(usernames, userSub);
    }

    /** The sorted authenticated usernames, each indexed to its session. */
    method SortedAuthenticatedUsers() returns (usernames: seq<string>, userSub: map<string, Subscriber>)
      ensures usernames == SortStrings(AuthNames(subscribers))
      ensures forall n :: n in usernames ==> n in userSub && userSub[n] == LastAuth(subscribers, n)
    {
      usernames, userSub := AuthenticatedUsers();
      usernames := SortStrings(usernames);
      SortedNamesIndexed(usernames, userSub);
    }

    /** The second loop of SendWhoList: one list per authenticated session. */
    method SendEachWhoList(usernames: seq<string>, userSub: map<string, Subscriber>) returns (sent: seq<Send>)
      requires forall n :: n in usernames ==> n in userSub && userSub[n] == LastAuth(subscribers, n)
      ensures sent == WhoSends(cfg, subscribers, usernames, subscribers)
    {
      var subs := subscribers;
      sent := [];
      var i := 0;
      while i < |subs|
        invariant 0 <= i <= |subs|
        invariant sent == WhoSends(cfg, subs[..i], usernames, subs)
      {
        var next := WhoListSend(subs[i], usernames, userSub);
        sent := sent + next;
        WhoSendsSnoc(cfg, subs, i, usernames, subs);
        i := i + 1;
      }
      assert subs[..i] == subs;
    }

    /** The loop body of the second loop: only authenticated sessions get a list. */
    method WhoListSend(sub: Subscriber, usernames: seq<string>, userSub: map<string, Subscriber>) returns (next: seq<Send>)
      requires forall n :: n in usernames ==> n in userSub && userSub[n] == LastAuth(subscribers, n)
      ensures next == if sub.authenticated then [Send(sub, WhoMessage(WhoEntries(cfg, sub, usernames, subscribers)))] else []
    {
      next := [];
      if sub.authenticated {
        var users := WhoListFor(sub, usernames, userSub);
        next := [Send(sub, WhoMessage(users))];
      }
    }

    /**
     * The first loop of SendWhoList: the authenticated usernames in session
     * order, and each name's session (a later session overwrites an earlier).
     */
    method AuthenticatedUsers() returns (usernames: seq<string>, userSub: map<string, Subscriber>)
      ensures usernames == AuthNames(subscribers)
      ensures forall n :: n in userSub <==> LastAuth(subscribers, n) != null
      ensures forall n :: n in userSub ==> userSub[n] == LastAuth(subscribers, n)
    {
      var subs := subscribers;
      usernames := [];
      userSub := map[];
      var i := 0;
      while i < |subs|
        invariant 0 <= i <= |subs|
        invariant usernames == AuthNames(subs[..i])
        invariant forall n :: n in userSub <==> LastAuth(subs[..i], n) != null
        invariant forall n :: n in userSub ==> userSub[n] == LastAuth(subs[..i], n)
      {
        assert subs[..i + 1][..i] == subs[..i];
        var sub := subs[i];
        if sub.authenticated {
          usernames := usernames + [sub.username];
          userSub := userSub[sub.username := sub];
        }
        i := i + 1;
      }
      assert subs[..i] == subs;
    }

    lemma SortedNamesIndexed(usernames: seq<string>, userSub: map<string, Subscriber>)
      requires usernames == SortStrings(AuthNames(subscribers))
      requires forall n :: n in userSub <==> LastAuth(subscribers, n) != null
      requires forall n :: n in userSub ==> userSub[n] == LastAuth(subscribers, n)
      ensures forall n :: n in usernames ==> n in userSub && userSub[n] == LastAuth(subscribers, n)
    {
      forall n | n in usernames ensures n in userSub {
        assert n in multiset(usernames);
        assert n in AuthNames(subscribers);
      }
    }

    /** The inner loop of SendWhoList: one viewer's rows. */
    method WhoListFor(sub: Subscriber, usernames: seq<string>, userSub: map<string, Subscriber>) returns (users: seq<WhoList>)
      requires forall n :: n in usernames ==> n in userSub && userSub[n] == LastAuth(subscribers, n)
      ensures users == WhoEntries(cfg, sub, usernames, subscribers)
    {
      ghost var expected := seq(|usernames| + 1, k requires 0 <= k <= |usernames| reads this, sub, set x | x in subscribers =>
                                  WhoEntries(cfg, sub, usernames[..k], subscribers));
      users := [];
      var j := 0;
      while j < |usernames|
        invariant 0 <= j <= |usernames|
        invariant users == expected[j]
      {
        var name := usernames[j];
        assert name in usernames;
        var user := userSub[name];
        WhoEntriesSnoc(cfg, sub, usernames, j, subscribers);
        assert expected[j + 1] == expected[j] + WhoRowFor(cfg, sub, user);
        users := AppendRow(users, user, sub, expected[j + 1]);
        j := j + 1;
      }
      assert usernames[..j] == usernames;
    }

    /** One step of the inner loop: the user's row, if visible, after the rows so far. */
    method AppendRow(users: seq<WhoList>, user: Subscriber, sub: Subscriber, ghost after: seq<WhoList>)
      returns (users': seq<WhoList>)
      requires after == users + WhoRowFor(cfg, sub, user)
      ensures users' == after
    {
      var row := VisibleRow(user, sub);
      users' := users + row;
    }

    /** The loop body of the inner loop: hidden users and blocked pairs are skipped. */
    method VisibleRow(user: Subscriber, sub: Subscriber) returns (row: seq<WhoList>)
      ensures row == WhoRowFor(cfg, sub, user)
    {
      if user.chatStatus == "hidden" {
        return [];
      }
      if Blocks(user, sub, cfg.blockableAdmins) {
        return [];
      }
      var who := WhoRow(user, sub);
      row := [who];
    }

    /** One row, built field by field. */
    method WhoRow(user: Subscriber, sub: Subscriber) returns (who: WhoList)
      ensures who == WhoEntry(cfg, user, sub)
    {
      var video := RowVideo(user, sub);
      var nickname, operator, vip := "", false, false;
      if user.jwtClaims.Some? {
        operator := user.jwtClaims.value.isAdmin;
        nickname := user.jwtClaims.value.nick;
        if cfg.vipMutuallySecret {
          if sub.IsVIP() {
            vip := user.jwtClaims.value.vip;
          }
        } else {
          vip := user.jwtClaims.value.vip;
        }
      }
      who := WhoList(user.username, nickname, user.chatStatus, video, user.dnd, operator, vip);
    }

    /** The row's camera flags, overwritten step by step as the masking rules apply. */
    method RowVideo(user: Subscriber, sub: Subscriber) returns (video: VideoStatus)
      ensures video == MaskedVideo(user.videoStatus, user.username == sub.username,
                                   user.Boots(sub.username) || user.Mutes(sub.username), sub.IsAdmin(), sub.IsVIP())
    {
      video := user.videoStatus;
      if user.username != sub.username {
        if user.Boots(sub.username) || user.Mutes(sub.username) {
          if sub.IsAdmin() {
            video := WithoutMutualOpen(video);
          } else {
            video := 0;
          }
        }
        if OnlyVIPSet(user.videoStatus) && !sub.IsVIP() {
          video := 0;
        }
      }
    }

    /**
     * Each Who List goes to an authenticated session and lists, in sorted
     * username order, exactly the authenticated users that are neither
     * hidden nor in a blocking relation with that viewer.
     */
    lemma WhoListsFacts(x: Send)
      requires x in WhoLists()
      ensures x.to in subscribers && x.to.authenticated && x.msg.action == ActionWhoList
      ensures SortedStrings(EntryNames(x.msg.whoList))
      ensures forall k :: 0 <= k < |x.msg.whoList| ==>
                var user := LastAuth(subscribers, x.msg.whoList[k].username);
                user != null && user.authenticated && Visible(cfg, user, x.to)
                && x.msg.whoList[k] == WhoEntry(cfg, user, x.to)
      ensures forall u ::
                u in subscribers && u.authenticated && LastAuth(subscribers, u.username) == u && Visible(cfg, u, x.to) ==>
                  u.username in EntryNames(x.msg.whoList)
    {
      var names := SortStrings(AuthNames(subscribers));
      WhoSendsMembers(cfg, subscribers, names, subscribers, x);
      SortStringsSorted(AuthNames(subscribers));
      WhoEntriesSorted(cfg, x.to, names, subscribers);
      forall k | 0 <= k < |x.msg.whoList|
        ensures var user := LastAuth(subscribers, x.msg.whoList[k].username);
                user != null && user.authenticated && Visible(cfg, user, x.to)
                && x.msg.whoList[k] == WhoEntry(cfg, user, x.to)
      {
        WhoEntriesSound(cfg, x.to, names, subscribers, k);
      }
      forall u | u in subscribers && u.authenticated && LastAuth(subscribers, u.username) == u
                 && Visible(cfg, u, x.to)
        ensures u.username in EntryNames(x.msg.whoList)
      {
        assert u.username in AuthNames(subscribers);
        assert u.username in multiset(AuthNames(subscribers));
        assert u.username in names;
        WhoEntriesComplete(cfg, x.to, names, subscribers, u.username);
      }
    }

    /** SendTo strips exactly one "@": "@@name" is looked up as "@name". */
    lemma SendToStripsOneAt(name: string)
      requires |name| > 0 && name[0] != '@'
      ensures TrimPrefix("@" + name, "@") == name
      ensures TrimPrefix("@@" + name, "@") == "@" + name
    {
      assert ("@" + name)[1..] == name;
      assert ("@@" + name)[1..] == "@" + name;
    }
  }
}
