/**
 * The chatbot's message handlers (client/handlers.go): the scrollback
 * buffer of recent messages, message lookup by ID, the reaction log that
 * keeps the bot from reacting twice, and the auto-greeter's cooldowns.
 * The clock, the coin flip, HTML stripping and the brain's replies are
 * inputs; times are nanoseconds, and Go's zero time is None.
 */
module BotHandlers {
  import opened Common
  import opened Messages
  import opened Chatbot

  const ScrollbackBuffer: nat := 500
  const Minute: int := 60 * 1000000000
  const LobbyDeadThreshold: int := 20 * Minute
  const AutoGreetGlobalCooldown: int := 8 * Minute
  const AutoGreetUserCooldown: int := 45 * Minute
  const LobbyChannel := "lobby"
  const JoinedText := "has joined the room"

  /* ---------- Negative reactions ---------- */

  /**
   * The "negative emoji" strings as client/handlers.go spells them: each is
   * the UTF-8 bytes of an emoji read back as Windows-1252 text, four
   * characters long.
   */
  const NegativeEmojiAsWritten: seq<string> := [
    "\U{F0}\U{178}\U{A4}\U{A2}", "\U{F0}\U{178}\U{A4}\U{AE}", "\U{F0}\U{178}\U{2DC}\U{A1}", "\U{F0}\U{178}\U{A4}\U{AC}",
    "\U{F0}\U{178}\U{2019}\U{A9}", "\U{F0}\U{178}\U{A4}\U{A1}", "\U{F0}\U{178}\U{2013}\U{2022}", "\U{F0}\U{178}\U{2018}\U{17D}"]

  /** The emoji those strings stand for: nauseated, vomiting, pouting, cursing, poo, clown, middle finger, thumbs down. */
  const NegativeEmoji: seq<string> := [
    "\U{1F922}", "\U{1F92E}", "\U{1F621}", "\U{1F92C}", "\U{1F4A9}", "\U{1F921}", "\U{1F595}", "\U{1F44E}"]

  /** The reaction contains one of the listed strings. */
  predicate IsNegative(list: seq<string>, emoji: string) {
    exists i :: 0 <= i < |list| && Contains(emoji, list[i])
  }

  lemma {:induction false} NoLongerNeedle(s: string, sub: string)
    requires |s| < |sub|
    ensures !Contains(s, sub)
  {
    if |s| > 0 {
      NoLongerNeedle(s[1..], sub);
    }
  }

  /**
   * As written, no reaction shorter than four characters is ever negative,
   * so a real emoji such as U+1F922 (one character) is never skipped.
   */
  lemma AsWrittenMissesEmoji(emoji: string)
    requires |emoji| < 4
    ensures !IsNegative(NegativeEmojiAsWritten, emoji)
  {
    forall i | 0 <= i < |NegativeEmojiAsWritten|
      ensures !Contains(emoji, NegativeEmojiAsWritten[i])
    {
      NoLongerNeedle(emoji, NegativeEmojiAsWritten[i]);
    }
  }

  /** With the intended list, every listed emoji is skipped, whatever surrounds it. */
  lemma NegativeEmojiCaught(before: string, i: nat, after: string)
    requires i < |NegativeEmoji|
    ensures IsNegative(NegativeEmoji, before + NegativeEmoji[i] + after)
  {
    ContainsConcat(before, NegativeEmoji[i], after);
  }

  /* ---------- Reactions ---------- */

  /**
   * The reaction log after seeing `emoji` on message `msgID`, and whether it
   * is new: a repeat leaves the log as it is.
   */
  function React(reactions: map<int, set<string>>, msgID: int, emoji: string): (r: (map<int, set<string>>, bool))
    ensures r.1 <==> !(msgID in reactions && emoji in reactions[msgID])
    ensures msgID in r.0 && emoji in r.0[msgID]
    ensures forall id :: id in r.0 && id != msgID ==> id in reactions && r.0[id] == reactions[id]
    ensures forall id :: id in reactions ==> id in r.0 && reactions[id] <= r.0[id]
  {
    if msgID in reactions && emoji in reactions[msgID] then (reactions, false)
    else (reactions[msgID := (if msgID in reactions then reactions[msgID] else {}) + {emoji}], true)
  }

  /** Reacting twice with the same emoji to the same message: the second is a repeat. */
  lemma ReactOnce(reactions: map<int, set<string>>, msgID: int, emoji: string)
    ensures var once := React(reactions, msgID, emoji).0;
            React(once, msgID, emoji) == (once, false)
  {
  }

  function ReactMessage(msgID: int, emoji: string): Message {
    Action(ActionReact).(messageID := msgID, message := emoji)
  }

  /* ---------- Auto-greeting ---------- */

  /** The greeter's state: the global cooldown and each user's re-greet time. */
  datatype Greeter = Greeter(cooldown: Option<int>, autoGreet: map<string, int>)

  /** The lobby has been quiet for more than the threshold (always, before any lobby message). */
  function ForceGreeting(lobbyLastUpdated: Option<int>, now: int): (r: bool)
    ensures lobbyLastUpdated.None? ==> r
    ensures lobbyLastUpdated.Some? ==> (r <==> lobbyLastUpdated.value + LobbyDeadThreshold < now)
  {
    lobbyLastUpdated.None? || now - lobbyLastUpdated.value > LobbyDeadThreshold
  }

  /**
   * The cooldown checks of a join: the global cooldown stops everything,
   * even a forced greeting; passing it restarts it. The user's own cooldown
   * stops a re-greet unless the greeting is forced; passing it restarts it.
   */
  function Greet(g: Greeter, user: string, now: int, force: bool): (r: (Greeter, bool))
    ensures var globalPassed := g.cooldown.None? || g.cooldown.value <= now;
            var userPassed := user !in g.autoGreet || g.autoGreet[user] <= now;
            r.1 <==> globalPassed && (userPassed || force)
    ensures r.1 ==> r.0 == Greeter(Some(now + AutoGreetGlobalCooldown), g.autoGreet[user := now + AutoGreetUserCooldown])
    ensures !r.1 ==> r.0.autoGreet == g.autoGreet
    ensures g.cooldown.None? || g.cooldown.value <= now ==> r.0.cooldown == Some(now + AutoGreetGlobalCooldown)
    ensures g.cooldown.Some? && now < g.cooldown.value ==> r.0 == g
  {
    if g.cooldown.Some? && now < g.cooldown.value then (g, false)
    else
      var restarted := g.(cooldown := Some(now + AutoGreetGlobalCooldown));
      if user in g.autoGreet && now < g.autoGreet[user] && !force then (restarted, false)
      else (restarted.(autoGreet := g.autoGreet[user := now + AutoGreetUserCooldown]), true)
  }

  /** A join event: who joined, when, and whether the lobby had gone quiet. */
  datatype Join = Join(user: string, now: int, force: bool)

  /** The greeter after a run of joins, and the joins it greeted, in order. */
  function Run(g: Greeter, joins: seq<Join>): (Greeter, seq<Join>) {
    if |joins| == 0 then (g, [])
    else
      var (before, greeted) := Run(g, joins[..|joins| - 1]);
      var j := joins[|joins| - 1];
      var (after, ok) := Greet(before, j.user, j.now, j.force);
      (after, if ok then greeted + [j] else greeted)
  }

  predicate InTimeOrder(joins: seq<Join>) {
    forall i, k :: 0 <= i < k < |joins| ==> joins[i].now <= joins[k].now
  }

  /**
   * Greetings are at least the global cooldown apart, and a user is greeted
   * again within the user cooldown only when the greeting is forced.
   */
  predicate Spaced(greeted: seq<Join>) {
    && (forall i, k :: 0 <= i < k < |greeted| ==> greeted[i].now + AutoGreetGlobalCooldown <= greeted[k].now)
    && (forall i, k :: 0 <= i < k < |greeted| && greeted[i].user == greeted[k].user && !greeted[k].force ==>
          greeted[i].now + AutoGreetUserCooldown <= greeted[k].now)
  }

  /** The cooldowns the greeter holds cover every greeting made so far. */
  predicate Covers(g: Greeter, greeted: seq<Join>) {
    forall x :: x in greeted ==>
      && g.cooldown.Some? && x.now + AutoGreetGlobalCooldown <= g.cooldown.value
      && x.user in g.autoGreet && x.now + AutoGreetUserCooldown <= g.autoGreet[x.user]
  }

  /** One join, no earlier than every greeting so far, keeps greetings spaced. */
  lemma GreetStep(g: Greeter, greeted: seq<Join>, j: Join)
    requires Spaced(greeted) && Covers(g, greeted)
    requires forall x :: x in greeted ==> x.now <= j.now
    ensures var (after, ok) := Greet(g, j.user, j.now, j.force);
            var next := if ok then greeted + [j] else greeted;
            Spaced(next) && Covers(after, next)
  {
    var (after, ok) := Greet(g, j.user, j.now, j.force);
    if ok {
      var next := greeted + [j];
      forall i | 0 <= i < |greeted|
        ensures greeted[i].now + AutoGreetGlobalCooldown <= j.now
        ensures greeted[i].user == j.user && !j.force ==> greeted[i].now + AutoGreetUserCooldown <= j.now
      {
        assert greeted[i] in greeted;
      }
      forall i, k | 0 <= i < k < |next|
        ensures next[i].now + AutoGreetGlobalCooldown <= next[k].now
        ensures next[i].user == next[k].user && !next[k].force ==> next[i].now + AutoGreetUserCooldown <= next[k].now
      {
        if k < |greeted| {
          assert next[i] == greeted[i] && next[k] == greeted[k];
        }
      }
    }
  }

  /**
   * Over any run of joins in time order, starting from the bot's initial
   * state, greetings stay spaced by the cooldowns.
   */
  lemma {:induction false} GreetingsSpaced(joins: seq<Join>)
    requires InTimeOrder(joins)
    ensures Spaced(Run(Greeter(None, map[]), joins).1)
    ensures Covers(Run(Greeter(None, map[]), joins).0, Run(Greeter(None, map[]), joins).1)
    ensures forall x :: x in Run(Greeter(None, map[]), joins).1 ==> x in joins
  {
    if |joins| > 0 {
      var prefix := joins[..|joins| - 1];
      assert InTimeOrder(prefix) by {
        forall i, k | 0 <= i < k < |prefix| ensures prefix[i].now <= prefix[k].now {
          assert prefix[i] == joins[i] && prefix[k] == joins[k];
        }
      }
      GreetingsSpaced(prefix);
      var (before, greeted) := Run(Greeter(None, map[]), prefix);
      var j := joins[|joins| - 1];
      forall x | x in greeted ensures x in joins && x.now <= j.now {
        var i :| 0 <= i < |prefix| && prefix[i] == x;
        assert joins[i] == x;
      }
      GreetStep(before, greeted, j);
    }
  }

  /* ---------- The handlers ---------- */

  class Bot {
    var username: string
    var whoList: seq<WhoList>
    var autoGreet: map<string, int>
    var autoGreetCooldown: Option<int>
    var messageBuf: seq<Message>
    /** Every message cached so far. */
    ghost var seen: seq<Message>
    var lobbyChannelLastUpdated: Option<int>
    var reactions: map<int, set<string>>

    /** The scrollback buffer holds the newest ScrollbackBuffer messages seen, in order. */
    ghost predicate Valid()
      reads this
    {
      messageBuf == LastN(seen, ScrollbackBuffer)
    }

    function Greeting(): Greeter
      reads this
    {
      Greeter(autoGreetCooldown, autoGreet)
    }

    /** SetupChatbot's handler state: everything empty. */
    constructor(username: string)
      ensures this.username == username && whoList == [] && messageBuf == [] && seen == []
      ensures autoGreet == map[] && autoGreetCooldown == None && lobbyChannelLastUpdated == None && reactions == map[]
      ensures Valid()
    {
      this.username := username;
      whoList := [];
      autoGreet := map[];
      autoGreetCooldown := None;
      messageBuf := [];
      seen := [];
      lobbyChannelLastUpdated := None;
      reactions := map[];
    }

    /** OnWho: keep the latest who list. */
    method OnWho(msg: Message)
      modifies this
      ensures whoList == msg.whoList
      ensures username == old(username) && messageBuf == old(messageBuf) && seen == old(seen)
      ensures Greeting() == old(Greeting()) && lobbyChannelLastUpdated == old(lobbyChannelLastUpdated) && reactions == old(reactions)
    {
      whoList := msg.whoList;
    }

    /** cacheMessage: append and keep the newest ScrollbackBuffer messages. */
    method CacheMessage(msg: Message)
      requires Valid()
      modifies this
      ensures Valid()
      ensures messageBuf == LastN(old(messageBuf) + [msg], ScrollbackBuffer) && seen == old(seen) + [msg]
      ensures username == old(username) && whoList == old(whoList)
      ensures Greeting() == old(Greeting()) && lobbyChannelLastUpdated == old(lobbyChannelLastUpdated) && reactions == old(reactions)
    {
      TrimIsCompositional(seen, msg, ScrollbackBuffer);
      messageBuf := messageBuf + [msg];
      if |messageBuf| > ScrollbackBuffer {
        messageBuf := messageBuf[|messageBuf| - ScrollbackBuffer..];
      }
      seen := seen + [msg];
    }

    /** getMessageByID: the first buffered message with the ID, or an empty message and false. */
    method GetMessageByID(msgID: int) returns (m: Message, ok: bool)
      ensures ok <==> exists i :: 0 <= i < |messageBuf| && messageBuf[i].messageID == msgID
      ensures ok ==> exists i :: 0 <= i < |messageBuf| && messageBuf[i] == m && m.messageID == msgID
                        && forall j :: 0 <= j < i ==> messageBuf[j].messageID != msgID
      ensures !ok ==> m == Action("")
    {
      for i := 0 to |messageBuf|
        invariant forall j :: 0 <= j < i ==> messageBuf[j].messageID != msgID
      {
        if messageBuf[i].messageID == msgID {
          return messageBuf[i], true;
        }
      }
      return Action(""), false;
    }

    /**
     * The state part of OnMessage: a message from anyone but the bot is
     * cached (with its HTML stripped), and a lobby message records the time.
     */
    method OnMessage(msg: Message, stripped: string, now: int)
      requires Valid()
      modifies this
      ensures Valid()
      ensures msg.username == old(username) ==>
                messageBuf == old(messageBuf) && seen == old(seen) && lobbyChannelLastUpdated == old(lobbyChannelLastUpdated)
      ensures msg.username != old(username) ==>
                && seen == old(seen) + [msg.(message := stripped)]
                && messageBuf == LastN(old(messageBuf) + [msg.(message := stripped)], ScrollbackBuffer)
                && lobbyChannelLastUpdated == if msg.channel == LobbyChannel then Some(now) else old(lobbyChannelLastUpdated)
      ensures username == old(username) && whoList == old(whoList)
      ensures Greeting() == old(Greeting()) && reactions == old(reactions)
    {
      var m := msg.(message := stripped);
      if m.username == username {
        return;
      }
      CacheMessage(m);
      if m.channel == LobbyChannel {
        lobbyChannelLastUpdated := Some(now);
      }
    }

    /** OnReact passes its checks: not the bot's own, not a negative emoji, and a message the bot has seen. */
    predicate ReactionNoticed(msg: Message)
      reads this
    {
      && msg.username != username
      && !IsNegative(NegativeEmoji, msg.message)
      && exists i :: 0 <= i < |messageBuf| && messageBuf[i].messageID == msg.messageID
    }

    /**
     * OnReact: a noticed reaction is logged; a new one is echoed when the
     * coin flip (0-99) is above 50, and a repeat is never echoed.
     */
    method OnReact(msg: Message, roll: int) returns (sent: Option<Message>)
      modifies this
      ensures !old(ReactionNoticed(msg)) ==> reactions == old(reactions) && sent == None
      ensures old(ReactionNoticed(msg)) ==>
                var (log, isNew) := React(old(reactions), msg.messageID, msg.message);
                reactions == log && sent == (if isNew && roll > 50 then Some(ReactMessage(msg.messageID, msg.message)) else None)
      ensures sent.Some? ==> !(msg.messageID in old(reactions) && msg.message in old(reactions)[msg.messageID])
      ensures username == old(username) && whoList == old(whoList) && messageBuf == old(messageBuf) && seen == old(seen)
      ensures Greeting() == old(Greeting()) && lobbyChannelLastUpdated == old(lobbyChannelLastUpdated)
    {
      if msg.username == username {
        return None;
      }
      for i := 0 to |NegativeEmoji|
        invariant forall j :: 0 <= j < i ==> !Contains(msg.message, NegativeEmoji[j])
      {
        if Contains(msg.message, NegativeEmoji[i]) {
          return None;
        }
      }
      var _, ok := GetMessageByID(msg.messageID);
      if !ok {
        return None;
      }
      if msg.messageID !in reactions {
        reactions := reactions[msg.messageID := {}];
      }
      if msg.message in reactions[msg.messageID] {
        return None;
      }
      reactions := reactions[msg.messageID := reactions[msg.messageID] + {msg.message}];
      if roll > 50 {
        return Some(ReactMessage(msg.messageID, msg.message));
      }
      return None;
    }

    /**
     * OnPresence: on someone else's join, the cooldown checks; a user who
     * passes them and is still on the who list gets the brain's "/greet"
     * reply in the lobby, unless it errs or says not to reply. A forced
     * greeting tells the brain nobody is online.
     */
    method OnPresence(msg: Message, now: int, reply: string, replyErr: bool)
      returns (vars: Option<BrainVars>, sent: Option<Message>)
      modifies this
      ensures msg.username == old(username) || !Contains(msg.message, JoinedText) ==>
                Greeting() == old(Greeting()) && vars == None && sent == None
      ensures msg.username != old(username) && Contains(msg.message, JoinedText) ==>
                var force := old(ForceGreeting(lobbyChannelLastUpdated, now));
                var (g, ok) := Greet(old(Greeting()), msg.username, now, force);
                var online := GetUser(whoList, msg.username).Some?;
                var v := SetUserVariables(whoList, msg);
                && Greeting() == g
                && vars == (if ok && online then Some(if force then v.(numUsersOnline := "0") else v) else None)
                && sent == (if ok && online && !replyErr && !NoReply(reply)
                            then Some(Action(ActionMessage).(channel := LobbyChannel, username := msg.username, message := reply))
                            else None)
      ensures username == old(username) && whoList == old(whoList) && messageBuf == old(messageBuf) && seen == old(seen)
      ensures lobbyChannelLastUpdated == old(lobbyChannelLastUpdated) && reactions == old(reactions)
    {
      if msg.username == username || !Contains(msg.message, JoinedText) {
        return None, None;
      }
      var forceGreeting := ForceGreeting(lobbyChannelLastUpdated, now);
      if autoGreetCooldown.Some? && now < autoGreetCooldown.value {
        return None, None;
      }
      autoGreetCooldown := Some(now + AutoGreetGlobalCooldown);
      if msg.username in autoGreet {
        if now < autoGreet[msg.username] && !forceGreeting {
          return None, None;
        }
      }
      autoGreet := autoGreet[msg.username := now + AutoGreetUserCooldown];
      if GetUser(whoList, msg.username).None? {
        return None, None;
      }
      var v := SetUserVariables(whoList, msg);
      if forceGreeting {
        v := v.(numUsersOnline := "0");
      }
      vars := Some(v);
      if !replyErr && !NoReply(reply) {
        sent := Some(Action(ActionMessage).(channel := LobbyChannel, username := msg.username, message := reply));
      } else {
        sent := None;
      }
    }
  }
}
