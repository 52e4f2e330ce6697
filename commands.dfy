/**
 * The operator chat commands (pkg/commands.go): dispatch of a "/command"
 * line, and the /kick, /ban, /nsfw, /help, /shutdown and /kickall
 * commands. The shell-style word splitting is done by a foreign library,
 * so its outcome is an input.
 */
module Commands {
  import opened Common
  import opened Messages
  import opened Config
  import opened Server

  /** The shell-word split of a chat line, or the tokenizer's error. */
  datatype Parse = Words(words: seq<string>) | ParseError

  /** What ProcessCommand does with a line. */
  datatype Command =
    | Ignored
    | Kick(words: seq<string>)
    | Ban(words: seq<string>)
    | Nsfw(words: seq<string>)
    | Help
    | Shutdown
    | KickAll

  /** The commands ProcessCommand reports as handled. */
  predicate Handled(c: Command) {
    c.Kick? || c.Ban? || c.Nsfw? || c.Help?
  }

  predicate StartsWithSlash(message: string) {
    |message| > 0 && message[0] == '/'
  }

  /**
   * ProcessCommand's dispatch: only a non-empty line starting with a slash,
   * split without error into at least one word, and sent by an admin, can
   * reach a command.
   */
  function Dispatch(message: string, parse: Parse, isAdmin: bool): (c: Command)
    ensures !StartsWithSlash(message) ==> c == Ignored
    ensures !isAdmin ==> c == Ignored
    ensures parse.ParseError? ==> c == Ignored
    ensures c.Kick? || c.Ban? || c.Nsfw? ==> parse.Words? && c.words == parse.words && |c.words| >= 1
  {
    if !StartsWithSlash(message) then Ignored
    else match parse
      case ParseError => Ignored
      case Words(words) =>
        if |words| == 0 || !isAdmin then Ignored
        else if words[0] == "/kick" then Kick(words)
        else if words[0] == "/ban" then Ban(words)
        else if words[0] == "/nsfw" then Nsfw(words)
        else if words[0] == "/help" then Help
        else if words[0] == "/shutdown" then Shutdown
        else if words[0] == "/kickall" then KickAll
        else Ignored
  }

  /** The line is reported handled exactly for an admin's /kick, /ban, /nsfw or /help. */
  lemma DispatchHandledIff(message: string, parse: Parse, isAdmin: bool)
    ensures Handled(Dispatch(message, parse, isAdmin)) <==>
              StartsWithSlash(message) && isAdmin && parse.Words? && |parse.words| >= 1
              && parse.words[0] in ["/kick", "/ban", "/nsfw", "/help"]
  {
  }

  const KickUsage := "Usage: `/kick username` to remove the user from the chat room.\n\nNote: if the username has spaces in it, quote the name (shell style), `/kick \"username 2\"`"
  const BanUsage := "Usage: `/ban username` to remove the user from the chat room for 24 hours (default).\n\nSet another duration (in hours, fractions supported) like: `/ban username 0.5` for a 30-minute ban."
  const NsfwUsage := "Usage: `/nsfw username` to add the NSFW flag to their camera."
  const KickSelfNotice := "/kick: did you really mean to kick yourself?"
  const ShutdownNotice := "The chat server is going down for a reboot NOW!"
  const HelpText := "Moderator commands are:\n\n"
                    + "* `/kick <username>` to kick from chat\n"
                    + "* `/nsfw <username>` to mark their camera NSFW\n"
                    + "* `/shutdown` to gracefully shut down (reboot) the chat server\n"
                    + "* `/kickall` to kick EVERYBODY off and force them to log back in\n"
                    + "* `/help` to show this message\n\n"
                    + "Note: shell-style quoting is supported, if a username has a space in it, quote the whole username, e.g.: `/kick \"username 2\"`"

  /* ---------- /kick and /ban ---------- */

  /**
   * The session a /kick (`refuseSelf`) or /ban removes: the named user's
   * session, unless no name was given, nobody has it, or (for /kick only)
   * it is the operator's own name.
   */
  function RemovalTarget(s: ChatServer, sub: Subscriber, words: seq<string>, refuseSelf: bool): (r: Subscriber?)
    reads s, s.Subs(), sub
    ensures r != null <==> |words| >= 2 && words[1] in s.Usernames() && !(refuseSelf && words[1] == sub.username)
    ensures r != null ==> r in s.subscribers && r.username == words[1]
  {
    if |words| < 2 then null
    else
      var other := s.GetSubscriber(words[1]);
      if other == null || (refuseSelf && other.username == sub.username) then null else other
  }

  /** What a /kick (`kick`) or /ban sends, in order. */
  function RemovalSends(s: ChatServer, sub: Subscriber, words: seq<string>, kick: bool): seq<Send>
    reads s, s.Subs(), sub
  {
    if |words| < 2 then [Send(sub, Notice(if kick then KickUsage else BanUsage))]
    else
      var other := s.GetSubscriber(words[1]);
      if other == null then
        [Send(sub, Notice((if kick then "/kick" else "/ban") + ": username not found: " + words[1]))]
      else if kick && other.username == sub.username then [Send(sub, Notice(KickSelfNotice))]
      else [Send(other, Notice("You have been kicked from the chat room by " + sub.username)),
            Send(other, Action(ActionKick)),
            Send(sub, Notice(words[1] + " has been kicked from the room"))]
  }

  /**
   * A removal tells the removed session and disconnects it; every other
   * outcome is a single notice to the operator and disconnects nobody.
   */
  lemma RemovalNotifiesTarget(s: ChatServer, sub: Subscriber, words: seq<string>, kick: bool)
    ensures var target := RemovalTarget(s, sub, words, kick);
            var sent := RemovalSends(s, sub, words, kick);
            if target != null then
              |sent| == 3 && sent[1] == Send(target, Action(ActionKick)) && sent[0].to == target
              && sent[2].to == sub && sent[2].msg.action == ActionError
            else
              |sent| == 1 && sent[0].to == sub && sent[0].msg.action == ActionError
              && forall x :: x in sent ==> x.msg.action != ActionKick
  {
  }

  /** An operator cannot /kick their own name; /ban does not check. */
  lemma KickSelfRefused(s: ChatServer, sub: Subscriber, words: seq<string>)
    requires |words| >= 2 && words[1] == sub.username
    ensures RemovalTarget(s, sub, words, true) == null
    ensures sub.username in s.Usernames() ==> RemovalSends(s, sub, words, true) == [Send(sub, Notice(KickSelfNotice))]
    ensures sub.username in s.Usernames() ==> RemovalTarget(s, sub, words, false) != null
  {
  }

  /** The sessions left once a removal of `target` (if any) is done. */
  function Remaining(subs: seq<Subscriber>, target: Subscriber?): (r: seq<Subscriber>)
    ensures target == null ==> r == subs
    ensures target != null ==> r == Keep(subs, {target})
  {
    if target == null then subs else Keep(subs, {target})
  }

  /**
   * KickCommand (`kick`) and BanCommand: notify, disconnect and delete the
   * target. The ban duration is parsed but never used, so it is not modelled.
   */
  method RemovalCommand(s: ChatServer, sub: Subscriber, words: seq<string>, kick: bool) returns (sent: seq<Send>)
    requires |words| >= 1
    modifies s
    ensures sent == old(RemovalSends(s, sub, words, kick))
    ensures s.subscribers == old(Remaining(s.subscribers, RemovalTarget(s, sub, words, kick)))
  {
    if |words| == 1 {
      return [Send(sub, Notice(if kick then KickUsage else BanUsage))];
    }
    var username := words[1];
    var other := s.GetSubscriber(username);
    if other == null {
      sent := [Send(sub, Notice((if kick then "/kick" else "/ban") + ": username not found: " + username))];
    } else if kick && other.username == sub.username {
      sent := [Send(sub, Notice(KickSelfNotice))];
    } else {
      sent := [Send(other, Notice("You have been kicked from the chat room by " + sub.username)),
               Send(other, Action(ActionKick))];
      s.DeleteSubscriber(other);
      sent := sent + [Send(sub, Notice(username + " has been kicked from the room"))];
    }
  }

  /* ---------- /nsfw ---------- */

  /**
   * The /nsfw command as written: with no name it sends the usage notice
   * and then still reads `words[1]`, which is past the end of the words.
   */
  datatype NsfwRun = Marked(usageSent: bool, username: string) | IndexOutOfRange(usageSent: bool)

  function NsfwAsWritten(words: seq<string>): (r: NsfwRun)
    requires |words| >= 1
    ensures r.IndexOutOfRange? <==> r.usageSent
    ensures r.usageSent <==> |words| == 1
    ensures r.Marked? ==> r.username == words[1]
  {
    var usageSent := |words| == 1;
    if |words| < 2 then IndexOutOfRange(usageSent) else Marked(usageSent, words[1])
  }

  /** The bare command "/nsfw" sends its usage and then indexes past the end of the words. */
  lemma NsfwWithoutNamePanics()
    ensures NsfwAsWritten(["/nsfw"]) == IndexOutOfRange(true)
  {
  }

  /** The session /nsfw marks: the named user's, when a name was given and somebody has it. */
  function NsfwTarget(s: ChatServer, words: seq<string>): (r: Subscriber?)
    reads s, s.Subs()
    ensures r != null <==> |words| >= 2 && words[1] in s.Usernames()
    ensures r != null ==> r in s.subscribers && r.username == words[1]
  {
    if |words| < 2 then null else s.GetSubscriber(words[1])
  }

  /**
   * What /nsfw sends before the Who Lists: the usage when no name was given,
   * a not-found notice to the operator, or the target's notice and the echo
   * of its `marked` status.
   */
  function NsfwNotices(s: ChatServer, sub: Subscriber, words: seq<string>, marked: VideoStatus): (r: seq<Send>)
    reads s, s.Subs(), sub
    ensures |words| < 2 ==> r == [Send(sub, Notice(NsfwUsage))]
    ensures NsfwTarget(s, words) == null ==> |r| == 1 && r[0].to == sub && r[0].msg.action == ActionError
    ensures NsfwTarget(s, words) != null ==>
              |r| == 2 && r[0].to == NsfwTarget(s, words) && r[1].to == NsfwTarget(s, words)
              && r[1].msg.action == ActionMe && r[1].msg.videoStatus == marked
  {
    if |words| < 2 then [Send(sub, Notice(NsfwUsage))]
    else
      var other := s.GetSubscriber(words[1]);
      if other == null then [Send(sub, Notice("/nsfw: username not found: " + words[1]))]
      else [Send(other, Notice("Your camera has been marked as NSFW by " + sub.username)),
            Send(other, Action(ActionMe).(username := other.username, videoStatus := marked))]
  }

  /**
   * The /nsfw command with the missing return restored: without a name only
   * the usage is sent. Otherwise the target's camera gains the NSFW flag and
   * keeps its other flags, no other session changes, and after the target's
   * notices everybody gets a fresh Who List and the operator a confirmation.
   */
  method NsfwCommand(s: ChatServer, sub: Subscriber, words: seq<string>) returns (sent: seq<Send>)
    requires |words| >= 1
    modifies s.Subs()`videoStatus
    ensures var target := old(NsfwTarget(s, words));
            target != null ==> target.videoStatus == old(target.videoStatus) | VideoFlagNSFW
    ensures var target := old(NsfwTarget(s, words));
            forall x :: x in old(s.Subs()) && x != target ==> x.videoStatus == old(x.videoStatus)
    ensures var target := old(NsfwTarget(s, words));
            var marked := if target == null then 0 else old(target.videoStatus) | VideoFlagNSFW;
            sent == old(NsfwNotices(s, sub, words, marked))
                    + (if target == null then [] else s.WhoLists() + [Send(sub, Notice(words[1] + " has their camera marked as NSFW"))])
  {
    ghost var target := NsfwTarget(s, words);
    if |words| == 1 {
      return [Send(sub, Notice(NsfwUsage))];
    }
    var username := words[1];
    var other := s.GetSubscriber(username);
    assert other == target;
    if other == null {
      sent := [Send(sub, Notice("/nsfw: username not found: " + username))];
    } else {
      sent := MarkNsfw(s, sub, other, words);
    }
  }

  /** The found-target branch of /nsfw. */
  method MarkNsfw(s: ChatServer, sub: Subscriber, other: Subscriber, words: seq<string>) returns (sent: seq<Send>)
    requires |words| >= 2 && other == s.GetSubscriber(words[1])
    modifies other`videoStatus
    ensures other.videoStatus == old(other.videoStatus) | VideoFlagNSFW
    ensures var marked := other.videoStatus;
            sent == old(NsfwNotices(s, sub, words, marked))
                    + s.WhoLists() + [Send(sub, Notice(words[1] + " has their camera marked as NSFW"))]
  {
    var marked := other.videoStatus | VideoFlagNSFW;
    sent := [Send(other, Notice("Your camera has been marked as NSFW by " + sub.username)),
             Send(other, Action(ActionMe).(username := other.username, videoStatus := marked))];
    assert sent == NsfwNotices(s, sub, words, marked);
    other.videoStatus := marked;
    var who := s.SendWhoList();
    sent := sent + who + [Send(sub, Notice(words[1] + " has their camera marked as NSFW"))];
  }

  /* ---------- /kickall ---------- */

  /** The notice /kickall broadcasts: a link to the landing page when JWT logins have one. */
  function KickAllNotice(cfg: Config): string {
    if cfg.jwtEnabled && cfg.landingPageURL != "" then
      "<strong>Notice:</strong> The chat operator has requested that you log back in to the chat room. "
      + "Probably, this is because a new feature was launched that needs you to reload the page. "
      + "You may refresh the tab or <a href=\"" + cfg.landingPageURL + "\">click here</a> to re-enter the room."
    else
      "<strong>Notice:</strong> The chat operator has kicked everybody from the room. Usually, this "
      + "may mean a new feature of the chat has been launched and you need to reload the page for it "
      + "to function correctly."
  }

  /** The authenticated sessions among `subs`. */
  function AuthenticatedSessions(subs: seq<Subscriber>): set<Subscriber>
    reads set x | x in subs
  {
    set x | x in subs && x.authenticated
  }

  /** The sessions /kickall leaves: the unauthenticated ones, in order. */
  function WithoutAuthenticated(subs: seq<Subscriber>): seq<Subscriber>
    reads set x | x in subs
  {
    Keep(subs, AuthenticatedSessions(subs))
  }

  /** /kickall leaves exactly the unauthenticated sessions. */
  lemma WithoutAuthenticatedExactly(subs: seq<Subscriber>)
    ensures var r := WithoutAuthenticated(subs);
            (forall i :: 0 <= i < |r| ==> r[i] in subs && !r[i].authenticated)
            && (forall i :: 0 <= i < |subs| && !subs[i].authenticated ==> subs[i] in r)
  {
  }

  /** A sync.RWMutex: free, held by some readers, or held by a writer. */
  datatype RWLock = Free | Readers(n: nat) | Writer

  /** How the disconnect loop ends: every session visited, or waiting forever on a Lock. */
  datatype KickRun = Done(kept: seq<nat>) | Stuck(at: nat)

  /**
   * The disconnect loop of /kickall run over the sessions' `authenticated`
   * flags (session `from + k` has flag `auth[k]`) while `held` is how the
   * server's mutex is held around the loop. Each DeleteSubscriber takes the
   * write Lock and releases it, which waits unless nobody else holds the
   * mutex; an unauthenticated session is skipped and kept.
   */
  function KickLoop(auth: seq<bool>, held: RWLock, from: nat): KickRun
    decreases |auth|
  {
    if |auth| == 0 then Done([])
    else if !auth[0] then
      match KickLoop(auth[1..], held, from + 1)
      case Done(rest) => Done([from] + rest)
      case Stuck(at) => Stuck(at)
    else if held != Free then Stuck(from)
    else KickLoop(auth[1..], held, from + 1)
  }

  /** As written, the loop runs under the read lock taken just before it. */
  const HeldAsWritten := Readers(1)

  /**
   * As written, the loop waits forever exactly when some session is
   * authenticated, at the first such session: DeleteSubscriber's Lock waits
   * for the read lock the same goroutine holds until the loop ends.
   */
  lemma {:induction false} KickAllAsWrittenDeadlocks(auth: seq<bool>, from: nat)
    ensures KickLoop(auth, HeldAsWritten, from).Stuck? <==> exists k :: 0 <= k < |auth| && auth[k]
    ensures KickLoop(auth, HeldAsWritten, from).Stuck? ==>
              var at := KickLoop(auth, HeldAsWritten, from).at;
              from <= at < from + |auth| && auth[at - from] && forall k :: 0 <= k < at - from ==> !auth[k]
    decreases |auth|
  {
    if |auth| > 0 {
      KickAllAsWrittenDeadlocks(auth[1..], from + 1);
      if !auth[0] {
        assert forall k :: 1 <= k < |auth| ==> auth[k] == auth[1..][k - 1];
      }
    }
  }

  /**
   * `kept` lists, in increasing order, exactly the positions `from + k` of
   * the unauthenticated sessions among `auth`.
   */
  ghost predicate KeptExactly(kept: seq<nat>, auth: seq<bool>, from: nat) {
    && (forall i :: 0 <= i < |kept| ==> from <= kept[i] < from + |auth| && !auth[kept[i] - from])
    && (forall k :: 0 <= k < |auth| && !auth[k] ==> from + k in kept)
    && (forall i, j :: 0 <= i < j < |kept| ==> kept[i] < kept[j])
  }

  /** An authenticated first session leaves the positions kept from the rest. */
  lemma KeptPastAuthenticated(kept: seq<nat>, auth: seq<bool>, from: nat)
    requires |auth| > 0 && auth[0] && KeptExactly(kept, auth[1..], from + 1)
    ensures KeptExactly(kept, auth, from)
  {
    assert forall k :: 1 <= k < |auth| ==> auth[k] == auth[1..][k - 1];
  }

  /** An unauthenticated first session is kept in front of the rest. */
  lemma KeptUnauthenticated(rest: seq<nat>, auth: seq<bool>, from: nat)
    requires |auth| > 0 && !auth[0] && KeptExactly(rest, auth[1..], from + 1)
    ensures KeptExactly([from] + rest, auth, from)
  {
    var kept := [from] + rest;
    assert forall i :: 1 <= i < |kept| ==> kept[i] == rest[i - 1];
    assert forall k :: 1 <= k < |auth| ==> auth[k] == auth[1..][k - 1];
  }

  /**
   * Without the lock held around it, the loop visits every session and keeps
   * exactly the unauthenticated ones, in order: what KickAllCommand does.
   */
  lemma {:induction false} KickLoopUnlocked(auth: seq<bool>, from: nat)
    ensures KickLoop(auth, Free, from).Done?
    ensures KeptExactly(KickLoop(auth, Free, from).kept, auth, from)
    decreases |auth|
  {
    if |auth| > 0 {
      KickLoopUnlocked(auth[1..], from + 1);
      var rest := KickLoop(auth[1..], Free, from + 1).kept;
      if auth[0] {
        KeptPastAuthenticated(rest, auth, from);
      } else {
        KeptUnauthenticated(rest, auth, from);
      }
    }
  }

  /**
   * KickAllCommand as intended: broadcast the notice and the disconnect, then
   * delete every authenticated session with the read lock released, so only
   * unauthenticated ones remain, in order. As written the loop holds the read
   * lock and never gets past the first deletion (KickAllAsWrittenDeadlocks).
   */
  method KickAllCommand(s: ChatServer, sinceStart: int) returns (sent: seq<Send>)
    modifies s
    ensures sent == old(s.BroadcastSends(Notice(KickAllNotice(s.cfg)), sinceStart)
                        + s.BroadcastSends(Action(ActionKick), sinceStart))
    ensures s.subscribers == old(WithoutAuthenticated(s.subscribers))
  {
    sent := s.BroadcastSends(Notice(KickAllNotice(s.cfg)), sinceStart)
            + s.BroadcastSends(Action(ActionKick), sinceStart);
    DeleteAuthenticated(s);
  }

  /** The disconnect loop of KickAllCommand, over a snapshot of the sessions and without the read lock. */
  method DeleteAuthenticated(s: ChatServer)
    modifies s
    ensures s.subscribers == old(WithoutAuthenticated(s.subscribers))
  {
    var subs := s.subscribers;
    ghost var auth := AuthenticatedSessions(subs);
    ghost var gone: set<Subscriber> := {};
    KeepNothing(subs);
    var i := 0;
    while i < |subs|
      invariant 0 <= i <= |subs|
      invariant gone == old(AuthenticatedSessions(subs[..i]))
      invariant s.subscribers == Keep(subs, gone)
    {
      var x := subs[i];
      assert subs[..i + 1] == subs[..i] + [x];
      assert x.authenticated == old(x.authenticated);
      if x.authenticated {
        assert old(AuthenticatedSessions(subs[..i + 1])) == gone + {x};
        KeepTwice(subs, gone, {x});
        s.DeleteSubscriber(x);
        gone := gone + {x};
      } else {
        assert old(AuthenticatedSessions(subs[..i + 1])) == gone;
      }
      i := i + 1;
    }
    assert subs[..i] == subs;
  }

  /* ---------- ProcessCommand ---------- */

  /** The session list after command `c` by `sub`. */
  function SubscribersAfter(s: ChatServer, sub: Subscriber, c: Command): seq<Subscriber>
    reads s, s.Subs(), sub
  {
    match c
    case Kick(words) => Remaining(s.subscribers, RemovalTarget(s, sub, words, true))
    case Ban(words) => Remaining(s.subscribers, RemovalTarget(s, sub, words, false))
    case KickAll => WithoutAuthenticated(s.subscribers)
    case _ => s.subscribers
  }

  /** What command `c` sends, for every command but /nsfw (whose sends end with fresh Who Lists). */
  function CommandSends(s: ChatServer, sub: Subscriber, c: Command, sinceStart: int): seq<Send>
    reads s, s.Subs(), sub
  {
    match c
    case Ignored => []
    case Kick(words) => RemovalSends(s, sub, words, true)
    case Ban(words) => RemovalSends(s, sub, words, false)
    case Nsfw(_) => []
    case Help => [Send(sub, Notice(HelpText))]
    case Shutdown => s.BroadcastSends(Notice(ShutdownNotice), sinceStart)
    case KickAll => s.BroadcastSends(Notice(KickAllNotice(s.cfg)), sinceStart)
                    + s.BroadcastSends(Action(ActionKick), sinceStart)
  }

  /** The session whose camera command `c` marks NSFW, if any. */
  function MarkTarget(s: ChatServer, c: Command): Subscriber?
    reads s, s.Subs()
  {
    if c.Nsfw? then NsfwTarget(s, c.words) else null
  }

  /**
   * Server.ProcessCommand: returns whether the line was handled. /shutdown
   * broadcasts its notice and ends the process (`exited`); /kickall does its
   * work and then reports the line as not handled. Only /nsfw changes a
   * camera, and only its target's.
   */
  method ProcessCommand(s: ChatServer, sub: Subscriber, message: string, parse: Parse, sinceStart: int)
    returns (handled: bool, exited: bool, sent: seq<Send>)
    modifies s, s.Subs()`videoStatus
    ensures var c := Dispatch(message, parse, old(sub.IsAdmin()));
            handled == Handled(c) && (exited <==> c == Shutdown)
    ensures var target := old(MarkTarget(s, Dispatch(message, parse, sub.IsAdmin())));
            (target != null ==> target.videoStatus == old(target.videoStatus) | VideoFlagNSFW)
            && forall x :: x in old(s.Subs()) && x != target ==> x.videoStatus == old(x.videoStatus)
    ensures s.subscribers == old(SubscribersAfter(s, sub, Dispatch(message, parse, sub.IsAdmin())))
    ensures var c := Dispatch(message, parse, old(sub.IsAdmin()));
            !c.Nsfw? ==> sent == old(CommandSends(s, sub, c, sinceStart))
    ensures var c := Dispatch(message, parse, old(sub.IsAdmin()));
            c.Nsfw? ==>
              var target := old(NsfwTarget(s, c.words));
              var marked := if target == null then 0 else old(target.videoStatus) | VideoFlagNSFW;
              sent == old(NsfwNotices(s, sub, c.words, marked))
                      + (if target == null then [] else s.WhoLists() + [Send(sub, Notice(c.words[1] + " has their camera marked as NSFW"))])
  {
    var c := Dispatch(message, parse, sub.IsAdmin());
    ghost var target := MarkTarget(s, c);
    handled, exited := Handled(c), c == Shutdown;
    if c.Nsfw? {
      sent := NsfwCommand(s, sub, c.words);
    } else {
      sent := RunCommand(s, sub, c, sinceStart);
    }
  }

  /** Every command but /nsfw: these change the session list and nobody's camera. */
  method RunCommand(s: ChatServer, sub: Subscriber, c: Command, sinceStart: int) returns (sent: seq<Send>)
    requires !c.Nsfw? && (c.Kick? || c.Ban? ==> |c.words| >= 1)
    modifies s
    ensures s.subscribers == old(SubscribersAfter(s, sub, c))
    ensures sent == old(CommandSends(s, sub, c, sinceStart))
  {
    ghost var after := SubscribersAfter(s, sub, c);
    ghost var sends := CommandSends(s, sub, c, sinceStart);
    match c {
      case Ignored => sent := [];
      case Kick(words) =>
        assert after == Remaining(s.subscribers, RemovalTarget(s, sub, words, true));
        sent := RemovalCommand(s, sub, words, true);
      case Ban(words) =>
        assert after == Remaining(s.subscribers, RemovalTarget(s, sub, words, false));
        sent := RemovalCommand(s, sub, words, false);
      case Help => sent := [Send(sub, Notice(HelpText))];
      case Shutdown => sent := s.Broadcast(Notice(ShutdownNotice), sinceStart);
      case KickAll =>
        assert after == WithoutAuthenticated(s.subscribers);
        sent := KickAllCommand(s, sinceStart);
    }
  }
}
