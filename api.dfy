/**
 * The admin and statistics endpoints of the chat server (pkg/api.go): the
 * counting behind /api/statistics, the cached block lists sent over by the
 * website, and the effect of /api/block/now and /api/disconnect/now on the
 * sessions online. Request decoding is left to the HTTP layer; the model
 * starts from the decoded parameters.
 */
module Api {
  import opened Common
  import opened Messages
  import opened Config
  import opened Server

  /* ---------- Statistics ---------- */

  /** The Access-Control-Allow-Origin header: echoed for a listed, non-empty origin. */
  function CorsOrigin(origin: string, corsHosts: seq<string>): (r: Option<string>)
    ensures r.Some? <==> origin != "" && origin in corsHosts
    ensures r.Some? ==> r.value == origin
  {
    if origin != "" && origin in corsHosts then Some(origin) else None
  }

  /** The statistics result: every counted session, the distinct usernames, and cameras by colour. */
  datatype Stats = Stats(userCount: nat, usernames: seq<string>, blue: nat, red: nat)

  /** A session counted by the statistics: logged in and not hidden. */
  predicate Counted(sub: Subscriber)
    reads sub
  {
    sub.authenticated && sub.chatStatus != "hidden"
  }

  /** The statistics loop over `subs`: only a username's first counted session adds a name and a camera. */
  function StatsOf(subs: seq<Subscriber>): Stats
    reads set x | x in subs
  {
    if |subs| == 0 then Stats(0, [], 0, 0)
    else
      var st := StatsOf(subs[..|subs| - 1]);
      var sub := subs[|subs| - 1];
      if !Counted(sub) then st
      else if sub.username in st.usernames then st.(userCount := st.userCount + 1)
      else
        var st := st.(userCount := st.userCount + 1, usernames := st.usernames + [sub.username]);
        if !Has(sub.videoStatus, Active) then st
        else if Has(sub.videoStatus, NSFW) then st.(red := st.red + 1)
        else st.(blue := st.blue + 1)
  }

  /** The number of counted sessions in `subs`. */
  function CountedCount(subs: seq<Subscriber>): nat
    reads set x | x in subs
  {
    if |subs| == 0 then 0
    else CountedCount(subs[..|subs| - 1]) + (if Counted(subs[|subs| - 1]) then 1 else 0)
  }

  /**
   * UserCount counts every counted session, duplicates included; Usernames
   * holds the name of each counted session exactly once; and the cameras
   * counted are at most one per username.
   */
  lemma {:induction false} StatsFacts(subs: seq<Subscriber>)
    ensures StatsOf(subs).userCount == CountedCount(subs)
    ensures NoDup(StatsOf(subs).usernames)
    ensures forall n :: n in StatsOf(subs).usernames <==> exists i :: 0 <= i < |subs| && Counted(subs[i]) && subs[i].username == n
    ensures StatsOf(subs).red + StatsOf(subs).blue <= |StatsOf(subs).usernames| <= StatsOf(subs).userCount
  {
    if |subs| > 0 {
      var prefix := subs[..|subs| - 1];
      StatsFacts(prefix);
      assert forall i :: 0 <= i < |prefix| ==> prefix[i] == subs[i];
      var st := StatsOf(prefix);
      var sub := subs[|subs| - 1];
      if Counted(sub) && sub.username !in st.usernames {
        NoDupSnoc(st.usernames, sub.username);
      }
    }
  }

  lemma NoDupSnoc<T>(s: seq<T>, x: T)
    requires NoDup(s) && x !in s
    ensures NoDup(s + [x])
  {
    assert forall i :: 0 <= i < |s| ==> (s + [x])[i] == s[i];
  }

  /** A counted camera is red when it is on and marked NSFW, blue when on and not; an inactive camera is neither. */
  lemma StatsCameraColour(subs: seq<Subscriber>, sub: Subscriber)
    requires Counted(sub)
    requires forall i :: 0 <= i < |subs| ==> !Counted(subs[i]) || subs[i].username != sub.username
    ensures var before := StatsOf(subs);
            var after := StatsOf(subs + [sub]);
            && after.red == before.red + (if Has(sub.videoStatus, Active) && Has(sub.videoStatus, NSFW) then 1 else 0)
            && after.blue == before.blue + (if Has(sub.videoStatus, Active) && !Has(sub.videoStatus, NSFW) then 1 else 0)
  {
    assert (subs + [sub])[..|subs|] == subs;
    StatsFacts(subs);
  }

  /** Server.Statistics: the counting loop over the sessions. */
  method Statistics(s: ChatServer) returns (st: Stats)
    ensures st == StatsOf(s.subscribers)
  {
    var subs := s.subscribers;
    var unique: set<string> := {};
    st := Stats(0, [], 0, 0);
    for i := 0 to |subs|
      invariant st == StatsOf(subs[..i])
      invariant forall n :: n in unique <==> n in st.usernames
    {
      assert subs[..i + 1][..i] == subs[..i];
      var sub := subs[i];
      if sub.authenticated && sub.chatStatus != "hidden" {
        st := st.(userCount := st.userCount + 1);
        if sub.username in unique {
          continue;
        }
        st := st.(usernames := st.usernames + [sub.username]);
        unique := unique + {sub.username};
        if sub.videoStatus & VideoFlagActive == VideoFlagActive {
          if sub.videoStatus & VideoFlagNSFW == VideoFlagNSFW {
            st := st.(red := st.red + 1);
          } else {
            st := st.(blue := st.blue + 1);
          }
        }
      }
    }
    assert subs[..|subs|] == subs;
  }

  /* ---------- The cached block lists ---------- */

  /** The block list most recently stored for `username` in the log of stores, or the empty list. */
  function LastStored(log: seq<(string, seq<string>)>, username: string): seq<string> {
    if |log| == 0 then []
    else if log[|log| - 1].0 == username then log[|log| - 1].1
    else LastStored(log[..|log| - 1], username)
  }

  /** The cachedBlocklist map. */
  class BlocklistCache {
    var cachedBlocklist: map<string, seq<string>>
    /** Every SetCachedBlocklist call so far, in order. */
    ghost var stores: seq<(string, seq<string>)>

    /** Each user's cached list is the last one stored for them. */
    ghost predicate Valid()
      reads this
    {
      forall u :: (u in cachedBlocklist ==> cachedBlocklist[u] == LastStored(stores, u))
                  && (u !in cachedBlocklist ==> LastStored(stores, u) == [])
    }

    constructor()
      ensures cachedBlocklist == map[] && stores == [] && Valid()
    {
      cachedBlocklist := map[];
      stores := [];
    }

    /** GetCachedBlocklist: the last list stored for the user, or the empty list. */
    function GetCachedBlocklist(username: string): (r: seq<string>)
      reads this
      requires Valid()
      ensures r == LastStored(stores, username)
    {
      if username in cachedBlocklist then cachedBlocklist[username] else []
    }

    /** SetCachedBlocklist: store the user's list, replacing any earlier one. */
    method SetCachedBlocklist(username: string, blocklist: seq<string>)
      requires Valid()
      modifies this
      ensures Valid()
      ensures cachedBlocklist == old(cachedBlocklist)[username := blocklist]
      ensures stores == old(stores) + [(username, blocklist)]
    {
      cachedBlocklist := cachedBlocklist[username := blocklist];
      stores := stores + [(username, blocklist)];
    }
  }

  /** Storing a list for one user leaves every other user's cached list as it was. */
  lemma LastStoredOthers(log: seq<(string, seq<string>)>, username: string, blocklist: seq<string>, other: string)
    requires other != username
    ensures LastStored(log + [(username, blocklist)], other) == LastStored(log, other)
  {
    assert (log + [(username, blocklist)])[..|log|] == log;
  }

  /* ---------- BlockNow and DisconnectNow ---------- */

  const ErrAuthDenied := "Authentication denied."

  /** The other listed names a listed user is made to block. */
  function Others(usernames: seq<string>, username: string): (r: set<string>)
    ensures username !in r
    ensures forall n :: n in r <==> n in usernames && n != username
  {
    set n | n in usernames && n != username
  }

  /** The usernames of the sessions, in order. */
  function NamesOf(subs: seq<Subscriber>): (r: seq<string>)
    reads set x | x in subs
    ensures |r| == |subs| && forall k :: 0 <= k < |subs| ==> r[k] == subs[k].username
  {
    if |subs| == 0 then [] else NamesOf(subs[..|subs| - 1]) + [subs[|subs| - 1].username]
  }

  /** The first session whose name in `names` is `name`: GetSubscriber against a snapshot of the usernames. */
  function FirstByNames(subs: seq<Subscriber>, names: seq<string>, name: string): Subscriber?
    requires |names| == |subs|
  {
    if |subs| == 0 then null
    else if names[0] == name then subs[0]
    else FirstByNames(subs[1..], names[1..], name)
  }

  /** GetSubscriber depends on nothing but the usernames. */
  lemma {:induction false} FirstNamedByNames(subs: seq<Subscriber>, names: seq<string>, name: string)
    requires |names| == |subs| && forall k :: 0 <= k < |subs| ==> subs[k].username == names[k]
    ensures FirstNamed(subs, name) == FirstByNames(subs, names, name)
  {
    if |subs| > 0 {
      FirstNamedByNames(subs[1..], names[1..], name);
    }
  }

  /** Two snapshots that agree on who is called `name` find the same session. */
  lemma {:induction false} FirstByNamesAgree(subs: seq<Subscriber>, a: seq<string>, b: seq<string>, name: string)
    requires |a| == |subs| && |b| == |subs|
    requires forall k :: 0 <= k < |subs| ==> (a[k] == name <==> b[k] == name)
    ensures FirstByNames(subs, a, name) == FirstByNames(subs, b, name)
  {
    if |subs| > 0 {
      FirstByNamesAgree(subs[1..], a[1..], b[1..], name);
    }
  }

  /** The session found for a name carries that name in the snapshot, at every place it occurs. */
  lemma {:induction false} FirstByNamesNamed(subs: seq<Subscriber>, names: seq<string>, name: string, k: nat)
    requires |names| == |subs| && k < |subs| && FirstByNames(subs, names, name) == subs[k]
    requires forall a, b :: 0 <= a < |subs| && 0 <= b < |subs| && subs[a] == subs[b] ==> names[a] == names[b]
    ensures names[k] == name
  {
    if names[0] != name {
      if k == 0 {
        FirstByNamesIn(subs[1..], names[1..], name);
      } else {
        FirstByNamesNamed(subs[1..], names[1..], name, k - 1);
      }
    }
  }

  lemma {:induction false} FirstByNamesIn(subs: seq<Subscriber>, names: seq<string>, name: string)
    requires |names| == |subs| && FirstByNames(subs, names, name) != null
    ensures exists k :: 0 <= k < |subs| && subs[k] == FirstByNames(subs, names, name) && names[k] == name
  {
    if names[0] != name {
      FirstByNamesIn(subs[1..], names[1..], name);
      var k :| 0 <= k < |subs[1..]| && subs[1..][k] == FirstByNames(subs, names, name) && names[1..][k] == name;
      assert subs[k + 1] == subs[1..][k];
    }
  }

  /** The inner loop of BlockNow for one online user. */
  method BlockOthers(sub: Subscriber, usernames: seq<string>, username: string) returns (sent: seq<Send>)
    modifies sub
    ensures sub.muted == old(sub.muted) + Others(usernames, username)
    ensures sub.blocked == old(sub.blocked) + Others(usernames, username)
    ensures sub.username == old(sub.username)
    ensures sent == BlockNotices(sub, usernames, username)
  {
    sent := [];
    for j := 0 to |usernames|
      invariant sub.muted == old(sub.muted) + Others(usernames[..j], username)
      invariant sub.blocked == old(sub.blocked) + Others(usernames[..j], username)
      invariant sub.username == old(sub.username)
      invariant sent == BlockNotices(sub, usernames[..j], username)
    {
      assert usernames[..j + 1][..j] == usernames[..j];
      var otherName := usernames[j];
      if username == otherName {
        continue;
      }
      sub.muted := sub.muted + {otherName};
      sub.blocked := sub.blocked + {otherName};
      sent := sent + [Send(sub, Action(ActionBlock).(username := otherName))];
    }
    assert usernames[..|usernames|] == usernames;
  }

  /** The block notices to one session, one per other listed name, in list order. */
  function BlockNotices(sub: Subscriber, usernames: seq<string>, username: string): seq<Send> {
    if |usernames| == 0 then []
    else
      var rest := BlockNotices(sub, usernames[..|usernames| - 1], username);
      var other := usernames[|usernames| - 1];
      if other == username then rest else rest + [Send(sub, Action(ActionBlock).(username := other))]
  }

  /**
   * All block notices of BlockNow after walking `walked`: for each walked name in
   * order, the first session of that name (if online) is told of each other listed name.
   */
  function AllBlockNotices(subs: seq<Subscriber>, names: seq<string>, usernames: seq<string>,
                           walked: seq<string>): seq<Send>
    requires |names| == |subs|
  {
    if |walked| == 0 then []
    else
      var n := walked[|walked| - 1];
      var sub := FirstByNames(subs, names, n);
      AllBlockNotices(subs, names, usernames, walked[..|walked| - 1])
      + (if sub == null then [] else BlockNotices(sub, usernames, n))
  }

  /** The session at `k` is the first of its name and its name has been walked. */
  predicate Reached(subs: seq<Subscriber>, names: seq<string>, done: seq<string>, k: nat)
    requires |names| == |subs| && k < |subs|
  {
    names[k] in done && FirstByNames(subs, names, names[k]) == subs[k]
  }

  /** The muted sets of the sessions, in order. */
  function MutedOf(subs: seq<Subscriber>): (r: seq<set<string>>)
    reads set x | x in subs
    ensures |r| == |subs| && forall k :: 0 <= k < |subs| ==> r[k] == subs[k].muted
  {
    if |subs| == 0 then [] else MutedOf(subs[..|subs| - 1]) + [subs[|subs| - 1].muted]
  }

  /** The blocked sets of the sessions, in order. */
  function BlockedOf(subs: seq<Subscriber>): (r: seq<set<string>>)
    reads set x | x in subs
    ensures |r| == |subs| && forall k :: 0 <= k < |subs| ==> r[k] == subs[k].blocked
  {
    if |subs| == 0 then [] else BlockedOf(subs[..|subs| - 1]) + [subs[|subs| - 1].blocked]
  }

  /** Every session's set as BlockNow leaves it after walking `done`. */
  predicate AddedSoFar(subs: seq<Subscriber>, names: seq<string>, usernames: seq<string>, done: seq<string>,
                       start: seq<set<string>>, now: seq<set<string>>)
    requires |names| == |subs| && |start| == |subs| && |now| == |subs|
  {
    forall k :: 0 <= k < |subs| ==>
      now[k] == start[k] + (if Reached(subs, names, done, k) then Others(usernames, names[k]) else {})
  }

  /** Walking one more online name adds its other names to its session, and to nobody else. */
  lemma BlockStep(subs: seq<Subscriber>, names: seq<string>, usernames: seq<string>, done: seq<string>, n: string,
                  sub: Subscriber, start: seq<set<string>>, before: seq<set<string>>, after: seq<set<string>>)
    requires |names| == |subs| && |start| == |subs| && |before| == |subs| && |after| == |subs|
    requires sub == FirstByNames(subs, names, n)
    requires forall k :: 0 <= k < |subs| && subs[k] == sub ==> names[k] == n
    requires AddedSoFar(subs, names, usernames, done, start, before)
    requires forall k :: 0 <= k < |subs| ==> after[k] == if subs[k] == sub then before[k] + Others(usernames, n) else before[k]
    ensures AddedSoFar(subs, names, usernames, done + [n], start, after)
  {
  }

  /** The first session named `n` is online and has some other listed name to block. */
  predicate Blocks(subs: seq<Subscriber>, names: seq<string>, usernames: seq<string>, n: string)
    requires |names| == |subs|
  {
    FirstByNames(subs, names, n) != null && Others(usernames, n) != {}
  }

  /** Some of the first `i` listed names blocks something. */
  predicate AnyBlocks(subs: seq<Subscriber>, names: seq<string>, usernames: seq<string>, i: nat)
    requires |names| == |subs| && i <= |usernames|
  {
    i > 0 && (AnyBlocks(subs, names, usernames, i - 1) || Blocks(subs, names, usernames, usernames[i - 1]))
  }

  lemma {:induction false} AnyBlocksSome(subs: seq<Subscriber>, names: seq<string>, usernames: seq<string>, i: nat)
    requires |names| == |subs| && i <= |usernames|
    ensures AnyBlocks(subs, names, usernames, i) <==>
              exists a :: 0 <= a < i && FirstByNames(subs, names, usernames[a]) != null && Others(usernames, usernames[a]) != {}
  {
    if i > 0 {
      AnyBlocksSome(subs, names, usernames, i - 1);
    }
  }

  /**
   * One pass of BlockNow's loop: the first session named `username`, if
   * any, mutes and blocks the other listed names. `found` says whether that
   * added a block.
   */
  method BlockOne(s: ChatServer, usernames: seq<string>, i: nat, ghost names: seq<string>,
                  ghost muted0: seq<set<string>>, ghost blocked0: seq<set<string>>)
    returns (found: bool, sent: seq<Send>)
    requires i < |usernames|
    requires |names| == |s.subscribers| && |muted0| == |s.subscribers| && |blocked0| == |s.subscribers|
    requires forall k :: 0 <= k < |s.subscribers| ==> s.subscribers[k].username == names[k]
    requires AddedSoFar(s.subscribers, names, usernames, usernames[..i], muted0, MutedOf(s.subscribers))
    requires AddedSoFar(s.subscribers, names, usernames, usernames[..i], blocked0, BlockedOf(s.subscribers))
    modifies s.Subs()
    ensures s.subscribers == old(s.subscribers)
    ensures forall k :: 0 <= k < |s.subscribers| ==> s.subscribers[k].username == names[k]
    ensures AddedSoFar(s.subscribers, names, usernames, usernames[..i + 1], muted0, MutedOf(s.subscribers))
    ensures AddedSoFar(s.subscribers, names, usernames, usernames[..i + 1], blocked0, BlockedOf(s.subscribers))
    ensures found == Blocks(s.subscribers, names, usernames, usernames[i])
    ensures var sub := FirstByNames(s.subscribers, names, usernames[i]);
            sent == if sub == null then [] else BlockNotices(sub, usernames, usernames[i])
  {
    var subs := s.subscribers;
    var username := usernames[i];
    ghost var done := usernames[..i];
    assert usernames[..i + 1] == done + [username];
    var sub := s.GetSubscriber(username);
    FirstNamedByNames(subs, names, username);
    if sub == null {
      forall k | 0 <= k < |subs| ensures Reached(subs, names, done + [username], k) <==> Reached(subs, names, done, k) {
      }
      return false, [];
    }
    forall k | 0 <= k < |subs| && subs[k] == sub ensures names[k] == username {
      FirstByNamesNamed(subs, names, username, k);
    }
    ghost var mutedBefore, blockedBefore := MutedOf(subs), BlockedOf(subs);
    sent := BlockOthers(sub, usernames, username);
    BlockStep(subs, names, usernames, done, username, sub, muted0, mutedBefore, MutedOf(subs));
    BlockStep(subs, names, usernames, done, username, sub, blocked0, blockedBefore, BlockedOf(subs));
    found := Others(usernames, username) != {};
  }

  /**
   * BlockNow: with the right API key, every online listed user (the first
   * session of that name) mutes and blocks every other listed name, and
   * gets a block notice for each; `changed` (which sends the who list) says
   * whether any block was added. A wrong key changes nothing.
   */
  method BlockNow(s: ChatServer, adminAPIKey: string, apiKey: string, usernames: seq<string>)
    returns (err: Option<string>, changed: bool, notices: seq<Send>)
    modifies s.Subs()
    ensures apiKey != adminAPIKey ==> err == Some(ErrAuthDenied) && !changed && notices == []
    ensures apiKey == adminAPIKey <==> err == None
    ensures forall k :: 0 <= k < |s.subscribers| ==>
              var x := s.subscribers[k];
              var adds := if err.None? && old(x.username) in usernames && old(s.GetSubscriber(x.username)) == x
                          then Others(usernames, old(x.username)) else {};
              x.muted == old(x.muted) + adds && x.blocked == old(x.blocked) + adds && x.username == old(x.username)
    ensures changed <==> err.None? && exists i :: 0 <= i < |usernames| && old(s.GetSubscriber(usernames[i])) != null
                                                  && Others(usernames, usernames[i]) != {}
    ensures err.None? ==> notices == AllBlockNotices(old(s.subscribers), old(NamesOf(s.subscribers)), usernames, usernames)
  {
    if apiKey != adminAPIKey {
      return Some(ErrAuthDenied), false, [];
    }
    err := None;
    changed := false;
    notices := [];
    ghost var subs := s.subscribers;
    ghost var names := NamesOf(subs);
    ghost var muted0 := MutedOf(subs);
    ghost var blocked0 := BlockedOf(subs);
    forall n ensures old(s.GetSubscriber(n)) == FirstByNames(subs, names, n) {
      FirstNamedByNames(subs, names, n);
    }
    for i := 0 to |usernames|
      invariant s.subscribers == subs
      invariant forall k :: 0 <= k < |subs| ==> subs[k].username == names[k]
      invariant AddedSoFar(subs, names, usernames, usernames[..i], muted0, MutedOf(subs))
      invariant AddedSoFar(subs, names, usernames, usernames[..i], blocked0, BlockedOf(subs))
      invariant changed == AnyBlocks(subs, names, usernames, i)
      invariant notices == AllBlockNotices(subs, names, usernames, usernames[..i])
    {
      assert usernames[..i + 1][..i] == usernames[..i];
      var found, sent := BlockOne(s, usernames, i, names, muted0, blocked0);
      notices := notices + sent;
      changed := changed || found;
    }
    assert usernames[..|usernames|] == usernames;
    AnyBlocksSome(subs, names, usernames, |usernames|);
  }

  /** The presence message DisconnectNow broadcasts for `username`. */
  function PresenceOf(username: string, kick: bool): Message {
    Action(ActionPresence).(username := username, message := if kick then PresenceKicked else PresenceExited)
  }

  /** One session's disconnection: the presence broadcast, the custom message if any, and the kick. */
  method Disconnect(s: ChatServer, sub: Subscriber, username: string, kick: bool, message: string, sinceStart: int)
    returns (sent: seq<Send>)
    modifies sub`username, sub`authenticated
    ensures sent == old(s.BroadcastSends(PresenceOf(username, kick), sinceStart))
                    + (if message != "" then [Send(sub, Notice(message))] else [])
                    + [Send(sub, Action(ActionKick))]
    ensures sub.username == "" && !sub.authenticated
  {
    sent := s.Broadcast(PresenceOf(username, kick), sinceStart);
    if message != "" {
      sent := sent + [Send(sub, Notice(message))];
    }
    sent := sent + [Send(sub, Action(ActionKick))];
    sub.authenticated := false;
    sub.username := "";
  }

  /** The sessions DisconnectNow has logged out after walking `done`. */
  ghost function Gone(subs: seq<Subscriber>, names: seq<string>, done: seq<string>): set<Subscriber>
    requires |names| == |subs|
  {
    set k | 0 <= k < |subs| && Reached(subs, names, done, k) :: subs[k]
  }

  /** A broadcast's fan-out with the sessions in `gone` already logged out, so skipped. */
  function FanoutSkipping(cfg: Config, subs: seq<Subscriber>, sender: Subscriber?, msg: Message,
                          gone: set<Subscriber>): seq<Send>
    reads sender, set x | x in subs && x !in gone
  {
    if |subs| == 0 then []
    else
      var last := subs[|subs| - 1];
      FanoutSkipping(cfg, subs[..|subs| - 1], sender, msg, gone)
      + (if last !in gone && Delivers(cfg, last, sender, msg) then [Send(last, msg)] else [])
  }

  /** Skipping sessions that are logged out changes no broadcast: they are not delivered to anyway. */
  lemma {:induction false} SkipLoggedOut(cfg: Config, subs: seq<Subscriber>, sender: Subscriber?, msg: Message,
                                         gone: set<Subscriber>)
    requires forall x :: x in gone ==> !x.authenticated
    ensures Fanout(cfg, subs, sender, msg) == FanoutSkipping(cfg, subs, sender, msg, gone)
  {
    if |subs| > 0 {
      SkipLoggedOut(cfg, subs[..|subs| - 1], sender, msg, gone);
    }
  }

  /**
   * What DisconnectNow's loop sends for the names `usernames`, read from the
   * sessions before the call: the sends of each name in list order.
   */
  ghost function DisconnectSends(cfg: Config, subs: seq<Subscriber>, names: seq<string>, usernames: seq<string>,
                                 kick: bool, message: string, sinceStart: int): seq<Send>
    requires |names| == |subs|
    reads set x | x in subs
    decreases |usernames|
  {
    if |usernames| == 0 then []
    else
      var done := usernames[..|usernames| - 1];
      DisconnectSends(cfg, subs, names, done, kick, message, sinceStart)
      + DisconnectStepSends(cfg, subs, names, done, usernames[|usernames| - 1], kick, message, sinceStart)
  }

  /**
   * The sends for `name` once the names `done` are handled: nothing when no
   * session still logged in has that name; otherwise its presence broadcast
   * (outside the quiet period, to the sessions not yet logged out), the
   * custom message if any, and the kick. It reads only the sessions not yet
   * logged out.
   */
  ghost function DisconnectStepSends(cfg: Config, subs: seq<Subscriber>, names: seq<string>, done: seq<string>,
                                     name: string, kick: bool, message: string, sinceStart: int): seq<Send>
    requires |names| == |subs|
    reads set x | x in subs && x !in Gone(subs, names, done)
  {
    var sub := FirstByNames(subs, names, name);
    if sub == null || sub !in subs || sub in Gone(subs, names, done) then []
    else (if sinceStart < PresenceQuietPeriod then []
          else FanoutSkipping(cfg, subs, sub, PresenceOf(name, kick), Gone(subs, names, done)))
         + (if message != "" then [Send(sub, Notice(message))] else [])
         + [Send(sub, Action(ActionKick))]
  }

  /** A session is logged out after `done` exactly when it is reached by it. */
  lemma GoneAt(subs: seq<Subscriber>, names: seq<string>, done: seq<string>, m: nat)
    requires |names| == |subs| && m < |subs|
    requires forall k :: 0 <= k < |subs| && subs[k] == subs[m] ==> names[k] == names[m]
    ensures subs[m] in Gone(subs, names, done) <==> Reached(subs, names, done, m)
  {
  }

  /** Walking one more name logs out the first session of that name, if there is one. */
  lemma GoneSnoc(subs: seq<Subscriber>, names: seq<string>, done: seq<string>, n: string)
    requires |names| == |subs|
    ensures var r := FirstByNames(subs, names, n);
            Gone(subs, names, done + [n]) == Gone(subs, names, done) + (if r == null then {} else {r})
  {
    var r := FirstByNames(subs, names, n);
    if r != null {
      FirstByNamesIn(subs, names, n);
      var k :| 0 <= k < |subs| && subs[k] == r && names[k] == n;
      assert Reached(subs, names, done + [n], k);
    }
  }

  /** In a list without repeats, the name at `i` is not among the earlier ones. */
  lemma NotYetWalked(usernames: seq<string>, i: nat)
    requires NoDup(usernames) && i < |usernames|
    ensures usernames[i] !in usernames[..i]
  {
    forall k | 0 <= k < i ensures usernames[..i][k] != usernames[i] {
      assert usernames[..i][k] == usernames[k];
    }
  }

  /**
   * One step of DisconnectNow's loop on a list without repeats or the empty
   * name, with the names before `i` handled: the session found for the next
   * name is the first of that name in the snapshot and not yet logged out,
   * handling it logs out exactly that session, and what Disconnect sends for
   * it is the step's share of DisconnectSends.
   */
  lemma DisconnectStep(s: ChatServer, subs: seq<Subscriber>, names: seq<string>, usernames: seq<string>, i: nat,
                       kick: bool, message: string, sinceStart: int)
    requires s.subscribers == subs && |names| == |subs|
    requires forall j, k :: 0 <= j < |subs| && 0 <= k < |subs| && subs[j] == subs[k] ==> names[j] == names[k]
    requires NoDup(usernames) && "" !in usernames && i < |usernames|
    requires forall x :: x in Gone(subs, names, usernames[..i]) ==> x.username == "" && !x.authenticated
    requires forall k :: 0 <= k < |subs| && subs[k] !in Gone(subs, names, usernames[..i]) ==> subs[k].username == names[k]
    ensures var sub := s.GetSubscriber(usernames[i]);
            var gone := Gone(subs, names, usernames[..i]);
            && sub == FirstByNames(subs, names, usernames[i])
            && (sub != null <==> usernames[i] in names)
            && (sub != null ==> sub in subs && sub !in gone)
            && Gone(subs, names, usernames[..i + 1]) == gone + (if sub == null then {} else {sub})
            && (sub == null ==> DisconnectStepSends(s.cfg, subs, names, usernames[..i], usernames[i], kick, message, sinceStart) == [])
            && (sub != null ==>
                  s.BroadcastSends(PresenceOf(usernames[i], kick), sinceStart)
                  + (if message != "" then [Send(sub, Notice(message))] else [])
                  + [Send(sub, Action(ActionKick))]
                  == DisconnectStepSends(s.cfg, subs, names, usernames[..i], usernames[i], kick, message, sinceStart))
  {
    var username := usernames[i];
    var done := usernames[..i];
    var gone := Gone(subs, names, done);
    forall k | 0 <= k < |subs|
      ensures subs[k].username == if Reached(subs, names, done, k) then "" else names[k]
    {
      GoneAt(subs, names, done, k);
    }
    DisconnectFinds(subs, names, usernames, i);
    var sub := s.GetSubscriber(username);
    if sub != null {
      FirstByNamesIn(subs, names, username);
      var j :| 0 <= j < |subs| && subs[j] == sub && names[j] == username;
      assert !Reached(subs, names, done, j) by { NotYetWalked(usernames, i); }
      GoneAt(subs, names, done, j);
      if !(sinceStart < PresenceQuietPeriod) {
        SkipLoggedOut(s.cfg, subs, sub, PresenceOf(username, kick), gone);
      }
    }
    GoneSnoc(subs, names, done, username);
    assert usernames[..i + 1] == done + [username];
  }

  /**
   * DisconnectNow: with the right API key, every online listed user (the
   * first session of that name) is told they left or were kicked, gets the
   * custom message if there is one, is sent a disconnect, and loses its
   * login and username; `removed` counts them, and when it is positive
   * every session is sent its Who List afterwards. For a list without
   * repeats or the empty name, the count is the number of listed users
   * online and the sends are DisconnectSends followed by the Who Lists. A
   * wrong key changes nothing.
   */
  method DisconnectNow(s: ChatServer, adminAPIKey: string, apiKey: string, usernames: seq<string>, kick: bool,
                       message: string, sinceStart: int)
    returns (err: Option<string>, removed: nat, sent: seq<Send>)
    modifies s.Subs()
    ensures apiKey != adminAPIKey ==> err == Some(ErrAuthDenied) && removed == 0 && sent == []
    ensures apiKey == adminAPIKey <==> err == None
    ensures err.Some? ==> unchanged(s.Subs())
    ensures err.None? && removed > 0 ==> |s.WhoLists()| <= |sent| && sent[|sent| - |s.WhoLists()|..] == s.WhoLists()
    ensures err.None? && NoDup(usernames) && "" !in usernames ==>
              removed == CountIn(usernames, old(s.Usernames()))
    ensures err.None? && NoDup(usernames) && "" !in usernames ==>
              sent == old(DisconnectSends(s.cfg, s.subscribers, NamesOf(s.subscribers), usernames, kick, message, sinceStart))
                      + (if removed > 0 then s.WhoLists() else [])
    ensures err.None? && NoDup(usernames) && "" !in usernames ==>
              forall k :: 0 <= k < |s.subscribers| ==>
                var x := s.subscribers[k];
                if old(x.username) in usernames && old(s.GetSubscriber(x.username)) == x
                then x.username == "" && !x.authenticated
                else x.username == old(x.username) && x.authenticated == old(x.authenticated)
  {
    if apiKey != adminAPIKey {
      return Some(ErrAuthDenied), 0, [];
    }
    err := None;
    ghost var names := NamesOf(s.subscribers);
    forall n ensures s.GetSubscriber(n) == FirstByNames(s.subscribers, names, n) {
      FirstNamedByNames(s.subscribers, names, n);
    }
    removed, sent := DisconnectAll(s, usernames, kick, message, sinceStart);
    if NoDup(usernames) && "" !in usernames {
      forall k | 0 <= k < |s.subscribers|
        ensures var x := s.subscribers[k];
                if old(x.username) in usernames && old(s.GetSubscriber(x.username)) == x
                then x.username == "" && !x.authenticated
                else x.username == old(x.username) && x.authenticated == old(x.authenticated)
      {
        GoneAt(s.subscribers, names, usernames, k);
      }
    }
    if removed > 0 {
      var who := s.SendWhoList();
      sent := sent + who;
    }
  }

  /**
   * DisconnectNow's loop over the listed names, once the key is accepted:
   * for a list without repeats or the empty name, it disconnects the first
   * session of each online name, counts them, and sends DisconnectSends;
   * afterwards the sessions it reached (Gone) are logged out and renamed to
   * "" and the others are untouched.
   */
  method DisconnectAll(s: ChatServer, usernames: seq<string>, kick: bool, message: string, sinceStart: int)
    returns (removed: nat, sent: seq<Send>)
    modifies s.Subs()
    ensures NoDup(usernames) && "" !in usernames ==> removed == CountIn(usernames, old(s.Usernames()))
    ensures NoDup(usernames) && "" !in usernames ==>
              sent == old(DisconnectSends(s.cfg, s.subscribers, NamesOf(s.subscribers), usernames, kick, message, sinceStart))
    ensures NoDup(usernames) && "" !in usernames ==>
              forall x :: x in Gone(s.subscribers, old(NamesOf(s.subscribers)), usernames) ==>
                x.username == "" && !x.authenticated
    ensures NoDup(usernames) && "" !in usernames ==>
              forall x :: x in s.subscribers && x !in Gone(s.subscribers, old(NamesOf(s.subscribers)), usernames) ==>
                unchanged(x)
  {
    removed := 0;
    sent := [];
    var subs := s.subscribers;
    ghost var names := NamesOf(subs);
    assert forall n :: n in s.Usernames() <==> n in names;
    ghost var plain := NoDup(usernames) && "" !in usernames;
    assert Gone(subs, names, []) == {};
    for i := 0 to |usernames|
      invariant plain ==> removed == CountIn(usernames[..i], old(s.Usernames()))
      invariant plain ==> forall x :: x in Gone(subs, names, usernames[..i]) ==> x.username == "" && !x.authenticated
      invariant plain ==> forall k :: 0 <= k < |subs| && subs[k] !in Gone(subs, names, usernames[..i]) ==>
                            subs[k].username == names[k]
      invariant plain ==> forall x :: x in subs && x !in Gone(subs, names, usernames[..i]) ==> unchanged(x)
      invariant plain ==> sent == old(DisconnectSends(s.cfg, subs, names, usernames[..i], kick, message, sinceStart))
    {
      assert usernames[..i + 1][..i] == usernames[..i];
      if plain {
        // The step reads only the sessions not yet logged out, which are as they were.
        assert DisconnectStepSends(s.cfg, subs, names, usernames[..i], usernames[i], kick, message, sinceStart)
            == old(DisconnectStepSends(s.cfg, subs, names, usernames[..i], usernames[i], kick, message, sinceStart));
      }
      var found, out := DisconnectOne(s, usernames, i, kick, message, sinceStart, subs, names);
      sent := sent + out;
      if found {
        removed := removed + 1;
      }
    }
    assert usernames[..|usernames|] == usernames;
  }

  /**
   * One pass of DisconnectAll's loop, for the name at `i`: Disconnect the
   * session GetSubscriber finds, if any. On a list without repeats or the
   * empty name, with the names before `i` handled, it finds a session
   * exactly when the name is in the snapshot, sends the step's share of
   * DisconnectSends, and logs out that one session.
   */
  method DisconnectOne(s: ChatServer, usernames: seq<string>, i: nat, kick: bool, message: string, sinceStart: int,
                       ghost subs: seq<Subscriber>, ghost names: seq<string>)
    returns (found: bool, sent: seq<Send>)
    requires i < |usernames| && s.subscribers == subs && |names| == |subs|
    requires forall j, k :: 0 <= j < |subs| && 0 <= k < |subs| && subs[j] == subs[k] ==> names[j] == names[k]
    requires NoDup(usernames) && "" !in usernames ==>
               && (forall x :: x in Gone(subs, names, usernames[..i]) ==> x.username == "" && !x.authenticated)
               && (forall k :: 0 <= k < |subs| && subs[k] !in Gone(subs, names, usernames[..i]) ==>
                     subs[k].username == names[k])
    modifies s.Subs()
    ensures found <==> old(s.GetSubscriber(usernames[i])) != null
    ensures NoDup(usernames) && "" !in usernames ==>
              && (found <==> usernames[i] in names)
              && sent == old(DisconnectStepSends(s.cfg, subs, names, usernames[..i], usernames[i], kick, message, sinceStart))
              && Gone(subs, names, usernames[..i]) <= Gone(subs, names, usernames[..i + 1])
              && (forall x :: x in Gone(subs, names, usernames[..i + 1]) ==> x.username == "" && !x.authenticated)
              && (forall k :: 0 <= k < |subs| && subs[k] !in Gone(subs, names, usernames[..i + 1]) ==>
                    subs[k].username == names[k])
              && (forall x :: x in subs && x !in Gone(subs, names, usernames[..i + 1]) ==> unchanged(x))
  {
    var username := usernames[i];
    var sub := s.GetSubscriber(username);
    if NoDup(usernames) && "" !in usernames {
      DisconnectStep(s, subs, names, usernames, i, kick, message, sinceStart);
    }
    found := sub != null;
    sent := [];
    if sub != null {
      sent := Disconnect(s, sub, username, kick, message, sinceStart);
    }
  }

  /**
   * One step of DisconnectNow on a list without repeats or the empty name:
   * the sessions renamed to "" so far do not change whom the next name
   * finds.
   */
  lemma DisconnectFinds(subs: seq<Subscriber>, names: seq<string>, usernames: seq<string>, i: nat)
    requires |names| == |subs| && NoDup(usernames) && "" !in usernames && i < |usernames|
    requires forall k :: 0 <= k < |subs| ==>
               subs[k].username == if Reached(subs, names, usernames[..i], k) then "" else names[k]
    ensures FirstNamed(subs, usernames[i]) == FirstByNames(subs, names, usernames[i])
  {
    var n := usernames[i];
    assert n !in usernames[..i] by {
      forall k | 0 <= k < i ensures usernames[..i][k] != n {
        assert usernames[..i][k] == usernames[k];
      }
    }
    var cur := NamesOf(subs);
    FirstNamedByNames(subs, cur, n);
    FirstByNamesAgree(subs, cur, names, n);
  }

  /** The number of entries of `names` that are in `online`. */
  function CountIn(names: seq<string>, online: set<string>): nat {
    if |names| == 0 then 0
    else CountIn(names[..|names| - 1], online) + (if names[|names| - 1] in online then 1 else 0)
  }
}
