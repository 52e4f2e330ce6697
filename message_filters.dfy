/**
 * Server-side message filters and the recent-message context kept for
 * reports (pkg/message_filters.go). The context buffers are one map from
 * channel to the channel's latest lines, updated in place; filtering loops
 * over the configured filters, their phrases and each phrase's matches,
 * rewriting the message as it censors. Regular expressions are matched
 * outside this model: `find(phrase, text)` is the list of whole-match texts
 * Go's FindAllStringSubmatch returns.
 */
module MessageFilters {
  import opened Common
  import opened Messages
  import opened Config
  import opened Server

  /** How many lines of context each channel keeps. */
  const MessageContextSize: nat := 30

  const NoRecentHistory := "(No recent message history in this channel)"

  /** A context line: "<time> [<username>] <trimmed message>". */
  function ContextLine(now: string, username: string, message: string): string {
    now + " [" + username + "] " + TrimSpace(message)
  }

  /** The context key of a DM between two users: "@" and the two names sorted and joined by ":". */
  function DirectKey(username1: string, username2: string): string {
    if LessEq(username1, username2) then "@" + username1 + ":" + username2
    else "@" + username2 + ":" + username1
  }

  /** The DM key does not depend on which party is named first. */
  lemma DirectKeySymmetric(a: string, b: string)
    ensures DirectKey(a, b) == DirectKey(b, a)
  {
    if LessEq(a, b) && LessEq(b, a) {
      LessEqAntisymmetric(a, b);
    } else {
      LessEqTotal(a, b);
    }
  }

  /** The joined context ends with its newest line. */
  lemma {:induction false} JoinEndsWithLast(parts: seq<string>, sep: string)
    requires |parts| > 0
    ensures IsSuffix(parts[|parts| - 1], Join(parts, sep))
  {
    if |parts| > 1 {
      JoinEndsWithLast(parts[1..], sep);
      var j := Join(parts[1..], sep);
      var last := parts[|parts| - 1];
      assert parts[1..][|parts[1..]| - 1] == last;
      assert (parts[0] + sep + j)[|parts[0] + sep + j| - |last|..] == j[|j| - |last|..];
    }
  }

  /** The messageContexts map: each channel's latest context lines. */
  class MessageContexts {
    var contexts: map<string, seq<string>>
    /** Every line ever pushed, per channel. */
    ghost var history: map<string, seq<string>>

    /** Each channel holds the newest lines of its history, at most MessageContextSize. */
    ghost predicate Valid()
      reads this
    {
      && (forall c :: c in contexts <==> c in history)
      && (forall c :: c in contexts ==> contexts[c] == LastN(history[c], MessageContextSize))
    }

    function Context(channel: string): seq<string>
      reads this
    {
      if channel in contexts then contexts[channel] else []
    }

    ghost function History(channel: string): seq<string>
      reads this
    {
      if channel in history then history[channel] else []
    }

    constructor()
      ensures contexts == map[] && history == map[]
      ensures Valid()
    {
      contexts := map[];
      history := map[];
    }

    /** pushMessageContext: append a line to the channel's context and keep the newest MessageContextSize. */
    method Push(channel: string, line: string)
      requires Valid()
      modifies this
      ensures Valid()
      ensures history == old(history)[channel := old(History(channel)) + [line]]
      ensures contexts == old(contexts)[channel := LastN(old(Context(channel)) + [line], MessageContextSize)]
    {
      var buf := Context(channel) + [line];
      if |buf| > MessageContextSize {
        buf := buf[|buf| - MessageContextSize..];
      }
      ghost var h := History(channel) + [line];
      assert Context(channel) == LastN(History(channel), MessageContextSize);
      TrimIsCompositional(History(channel), line, MessageContextSize);
      assert buf == LastN(h, MessageContextSize);
      contexts := contexts[channel := buf];
      history := history[channel := h];
    }

    method PushMessage(channel: string, username: string, message: string, now: string)
      requires Valid()
      modifies this
      ensures Valid()
      ensures history == old(history)[channel := old(History(channel)) + [ContextLine(now, username, message)]]
      ensures contexts == old(contexts)[channel := LastN(old(Context(channel)) + [ContextLine(now, username, message)], MessageContextSize)]
    {
      Push(channel, ContextLine(now, username, message));
    }

    /** pushDirectMessageContext: the same, under the DM key of the two users. */
    method PushDirectMessage(username1: string, username2: string, username: string, message: string, now: string)
      requires Valid()
      modifies this
      ensures Valid()
      ensures var key := DirectKey(username1, username2);
              history == old(history)[key := old(History(key)) + [ContextLine(now, username, message)]]
      ensures var key := DirectKey(username1, username2);
              contexts == old(contexts)[key := LastN(old(Context(key)) + [ContextLine(now, username, message)], MessageContextSize)]
    {
      PushMessage(DirectKey(username1, username2), username, message, now);
    }

    /**
     * getMessageContext: a placeholder for a channel never pushed to, and
     * otherwise the lines joined by blank lines, ending with the newest.
     */
    function GetContext(channel: string): (r: string)
      reads this
      ensures channel !in contexts ==> r == NoRecentHistory
      ensures channel in contexts && |contexts[channel]| > 0 ==>
                IsSuffix(contexts[channel][|contexts[channel]| - 1], r)
    {
      if channel !in contexts then NoRecentHistory
      else
        var lines := contexts[channel];
        if |lines| > 0 then JoinEndsWithLast(lines, "\n\n"); Join(lines, "\n\n")
        else Join(lines, "\n\n")
    }

    function GetDirectContext(username1: string, username2: string): string
      reads this
    {
      GetContext(DirectKey(username1, username2))
    }

    /** The DM context reads the same whichever party asks. */
    lemma DirectContextSymmetric(a: string, b: string)
      ensures GetDirectContext(a, b) == GetDirectContext(b, a)
    {
      DirectKeySymmetric(a, b);
    }

    /** After a push, the channel's context ends with the pushed line. */
    lemma ContextShowsNewest(channel: string)
      requires Valid() && channel in history && |history[channel]| > 0
      ensures IsSuffix(history[channel][|history[channel]| - 1], GetContext(channel))
    {
      var h := history[channel];
      assert contexts[channel] == LastN(h, MessageContextSize);
      assert contexts[channel][|contexts[channel]| - 1] == h[|h| - 1];
    }
  }

  /* ---------- Censoring ---------- */

  /** `rep` before every character of `s` and once at the end: Go's ReplaceAll with an empty `pat`. */
  function Interleave(s: string, rep: string): string {
    if |s| == 0 then rep else rep + [s[0]] + Interleave(s[1..], rep)
  }

  /** Go's strings.ReplaceAll: every non-overlapping occurrence of `pat`, left to right. */
  function ReplaceAll(s: string, pat: string, rep: string): string
    decreases |s|
  {
    if |pat| == 0 then Interleave(s, rep)
    else if |s| < |pat| then s
    else if s[..|pat|] == pat then rep + ReplaceAll(s[|pat|..], pat, rep)
    else [s[0]] + ReplaceAll(s[1..], pat, rep)
  }

  /** The number of bytes UTF-8 spends on a character (Go's len counts these). */
  function CharBytes(c: char): (n: nat)
    ensures 1 <= n <= 4
    ensures c as int < 0x80 <==> n == 1
  {
    if c as int < 0x80 then 1
    else if c as int < 0x800 then 2
    else if c as int < 0x10000 then 3
    else 4
  }

  /** The UTF-8 length of a string: Go's len on the string. */
  function Utf8Len(s: string): nat {
    if |s| == 0 then 0 else CharBytes(s[0]) + Utf8Len(s[1..])
  }

  lemma {:induction false} Utf8LenAppend(a: string, b: string)
    ensures Utf8Len(a + b) == Utf8Len(a) + Utf8Len(b)
  {
    if |a| > 0 {
      assert (a + b)[1..] == a[1..] + b;
      Utf8LenAppend(a[1..], b);
    } else {
      assert a + b == b;
    }
  }

  /** A run of '*' takes one byte per star. */
  lemma {:induction false} Utf8LenStars(n: nat)
    ensures Utf8Len(Repeat('*', n)) == n
  {
    if n > 0 {
      assert Repeat('*', n)[1..] == Repeat('*', n - 1);
      Utf8LenStars(n - 1);
    }
  }

  /** A match is replaced by as many '*' as it has bytes (strings.Repeat("*", len(match))). */
  function Censor(text: string, hit: string): (r: string)
    ensures StarredFrom(r, text) && Utf8Len(r) == Utf8Len(text)
  {
    var out := ReplaceAll(text, hit, Repeat('*', Utf8Len(hit)));
    ReplaceAllStars(text, hit);
    StarredKeepsBytes(out, text);
    out
  }

  /**
   * `r` is `s` with some characters censored: each character of `s` is either
   * kept or replaced by one '*' per byte of its UTF-8 encoding.
   */
  predicate StarredFrom(r: string, s: string)
    decreases |s|
  {
    if |s| == 0 then |r| == 0
    else if |r| > 0 && r[0] == s[0] then StarredFrom(r[1..], s[1..])
    else
      var n := CharBytes(s[0]);
      |r| >= n && r[..n] == Repeat('*', n) && StarredFrom(r[n..], s[1..])
  }

  /** Censoring keeps the byte length. */
  lemma {:induction false} StarredKeepsBytes(r: string, s: string)
    requires StarredFrom(r, s)
    ensures Utf8Len(r) == Utf8Len(s)
    decreases |s|
  {
    if |s| > 0 {
      if |r| > 0 && r[0] == s[0] {
        StarredKeepsBytes(r[1..], s[1..]);
      } else {
        var n := CharBytes(s[0]);
        StarredKeepsBytes(r[n..], s[1..]);
        assert r == r[..n] + r[n..];
        Utf8LenAppend(r[..n], r[n..]);
        Utf8LenStars(n);
      }
    }
  }

  lemma {:induction false} StarredRefl(s: string)
    ensures StarredFrom(s, s)
  {
    if |s| > 0 {
      StarredRefl(s[1..]);
    }
  }

  /** Censoring a whole match `p` in front of text censored independently. */
  lemma RepeatAdd(c: char, a: nat, b: nat)
    ensures Repeat(c, a + b) == Repeat(c, a) + Repeat(c, b)
  {
    var l, r := Repeat(c, a + b), Repeat(c, a) + Repeat(c, b);
    assert |l| == |r|;
    forall i | 0 <= i < |l| ensures l[i] == r[i] {
      if i >= a {
        assert r[i] == Repeat(c, b)[i - a];
      }
    }
  }

  lemma SplitFirst(p: string, s: string)
    requires |p| > 0
    ensures [p[0]] + (p[1..] + s) == p + s
  {
  }

  lemma ConcatAssoc(a: string, b: string, c: string)
    ensures (a + b) + c == a + (b + c)
  {
  }

  /** Censoring one more character in front. */
  lemma StarredCons(c: char, r: string, s: string)
    requires StarredFrom(r, s)
    ensures StarredFrom(Repeat('*', CharBytes(c)) + r, [c] + s)
  {
    var n, t, u := CharBytes(c), Repeat('*', CharBytes(c)) + r, [c] + s;
    assert u[0] == c && u[1..] == s;
    assert t[..n] == Repeat('*', n) && t[n..] == r;
    if c == '*' {
      assert t[0] == u[0] && t[1..] == r;
    }
  }

  lemma {:induction false} StarredStars(p: string, rest: string, s: string)
    requires StarredFrom(rest, s)
    ensures StarredFrom(Repeat('*', Utf8Len(p)) + rest, p + s)
  {
    if |p| == 0 {
      assert Repeat('*', Utf8Len(p)) + rest == rest && p + s == s;
    } else {
      var n, m := CharBytes(p[0]), Utf8Len(p[1..]);
      StarredStars(p[1..], rest, s);
      StarredCons(p[0], Repeat('*', m) + rest, p[1..] + s);
      RepeatAdd('*', n, m);
      SplitFirst(p, s);
      ConcatAssoc(Repeat('*', n), Repeat('*', m), rest);
    }
  }

  lemma {:induction false} InterleaveEmpty(s: string)
    ensures Interleave(s, "") == s
  {
    if |s| > 0 {
      InterleaveEmpty(s[1..]);
    }
  }

  /** Replacing every occurrence of `pat` by one '*' per byte censors `s`. */
  lemma {:induction false} ReplaceAllStars(s: string, pat: string)
    ensures StarredFrom(ReplaceAll(s, pat, Repeat('*', Utf8Len(pat))), s)
    decreases |s|
  {
    var stars := Repeat('*', Utf8Len(pat));
    if |pat| == 0 {
      InterleaveEmpty(s);
      StarredRefl(s);
    } else if |s| < |pat| {
      StarredRefl(s);
    } else if s[..|pat|] == pat {
      ReplaceAllStars(s[|pat|..], pat);
      StarredStars(pat, ReplaceAll(s[|pat|..], pat, stars), s[|pat|..]);
      assert pat + s[|pat|..] == s;
    } else {
      ReplaceAllStars(s[1..], pat);
      var r := [s[0]] + ReplaceAll(s[1..], pat, stars);
      assert r[1..] == ReplaceAll(s[1..], pat, stars);
    }
  }

  /** A censored run of stars is still a run of stars. */
  lemma {:induction false} StarredOverStars(a: string, n: nat, b: string)
    requires StarredFrom(a, Repeat('*', n) + b)
    ensures |a| >= n && a[..n] == Repeat('*', n) && StarredFrom(a[n..], b)
  {
    if n == 0 {
      assert Repeat('*', n) + b == b && a[n..] == a;
    } else {
      var s := Repeat('*', n) + b;
      assert s[0] == '*' && s[1..] == Repeat('*', n - 1) + b;
      assert a[0] == '*';
      StarredOverStars(a[1..], n - 1, b);
      assert a[..n] == [a[0]] + a[1..][..n - 1];
      assert a[n..] == a[1..][n - 1..];
    }
  }

  lemma {:induction false} StarredTransitive(a: string, b: string, c: string)
    requires StarredFrom(a, b) && StarredFrom(b, c)
    ensures StarredFrom(a, c)
    decreases |c|
  {
    if |c| > 0 {
      var n := CharBytes(c[0]);
      if |b| > 0 && b[0] == c[0] {
        if |a| > 0 && a[0] == b[0] {
          StarredTransitive(a[1..], b[1..], c[1..]);
        } else {
          StarredTransitive(a[n..], b[1..], c[1..]);
        }
      } else {
        assert b == Repeat('*', n) + b[n..];
        StarredOverStars(a, n, b[n..]);
        StarredTransitive(a[n..], b[n..], c[1..]);
      }
    }
  }

  /** Censoring each match in turn, as the inner loop does. */
  function CensorMatches(matches: seq<string>, text: string): string {
    if |matches| == 0 then text
    else Censor(CensorMatches(matches[..|matches| - 1], text), matches[|matches| - 1])
  }

  /** Censoring phrase by phrase; each phrase is matched against the text censored so far. */
  function CensorPhrases(phrases: seq<string>, text: string, find: (string, string) -> seq<string>): string {
    if |phrases| == 0 then text
    else
      var sofar := CensorPhrases(phrases[..|phrases| - 1], text, find);
      CensorMatches(find(phrases[|phrases| - 1], sofar), sofar)
  }

  lemma {:induction false} CensorMatchesStars(matches: seq<string>, text: string)
    ensures StarredFrom(CensorMatches(matches, text), text)
  {
    if |matches| > 0 {
      var before := CensorMatches(matches[..|matches| - 1], text);
      CensorMatchesStars(matches[..|matches| - 1], text);
      ReplaceAllStars(before, matches[|matches| - 1]);
      StarredTransitive(CensorMatches(matches, text), before, text);
    } else {
      StarredRefl(text);
    }
  }

  /** Censoring phrase by phrase only replaces whole characters by one '*' per byte. */
  lemma {:induction false} CensorPhrasesStars(phrases: seq<string>, text: string, find: (string, string) -> seq<string>)
    ensures StarredFrom(CensorPhrases(phrases, text, find), text)
  {
    if |phrases| > 0 {
      var sofar := CensorPhrases(phrases[..|phrases| - 1], text, find);
      CensorPhrasesStars(phrases[..|phrases| - 1], text, find);
      CensorMatchesStars(find(phrases[|phrases| - 1], sofar), sofar);
      StarredTransitive(CensorPhrases(phrases, text, find), sofar, text);
    } else {
      StarredRefl(text);
    }
  }

  /* ---------- filterMessage ---------- */

  /** Some phrase has a match in `text`. */
  predicate AnyMatch(phrases: seq<string>, text: string, find: (string, string) -> seq<string>) {
    exists i :: 0 <= i < |phrases| && |find(phrases[i], text)| > 0
  }

  predicate Fires(filter: MessageFilter, text: string, find: (string, string) -> seq<string>) {
    filter.enabled && AnyMatch(filter.keywordPhrases, text, find)
  }

  /** The index of the first enabled filter with a match. */
  function FirstFiring(filters: seq<MessageFilter>, text: string, find: (string, string) -> seq<string>): (r: Option<nat>)
    ensures r.Some? ==> r.value < |filters| && Fires(filters[r.value], text, find)
    ensures r.Some? ==> forall j :: 0 <= j < r.value ==> !Fires(filters[j], text, find)
    ensures r.None? ==> forall j :: 0 <= j < |filters| ==> !Fires(filters[j], text, find)
  {
    if |filters| == 0 then None
    else if Fires(filters[0], text, find) then Some(0)
    else
      match FirstFiring(filters[1..], text, find)
      case None => None
      case Some(k) => Some(k + 1)
  }

  /** The inner loop of ScanFilter: each match of one phrase censored in turn, when the filter censors. */
  method CensorEach(start: string, ms: seq<string>, censor: bool) returns (out: string)
    ensures out == if censor then CensorMatches(ms, start) else start
  {
    out := start;
    for j := 0 to |ms|
      invariant out == if censor then CensorMatches(ms[..j], start) else start
    {
      assert ms[..j + 1][..j] == ms[..j];
      if censor {
        out := Censor(out, ms[j]);
      }
    }
    assert ms[..|ms|] == ms;
  }

  /**
   * The phrase loop of one filter: whether any phrase matched, and the
   * message after censoring (when the filter censors).
   */
  method ScanFilter(filter: MessageFilter, text: string, find: (string, string) -> seq<string>)
    returns (matched: bool, out: string)
    ensures matched <==> AnyMatch(filter.keywordPhrases, text, find)
    ensures out == if filter.censorMessage then CensorPhrases(filter.keywordPhrases, text, find) else text
  {
    var phrases := filter.keywordPhrases;
    matched := false;
    out := text;
    for i := 0 to |phrases|
      invariant matched <==> AnyMatch(phrases[..i], text, find)
      invariant !matched ==> out == text
      invariant out == if filter.censorMessage then CensorPhrases(phrases[..i], text, find) else text
    {
      assert phrases[..i + 1][..i] == phrases[..i];
      var ms := find(phrases[i], out);
      matched := matched || |ms| > 0;
      out := CensorEach(out, ms, filter.censorMessage);
      if !AnyMatch(phrases[..i], text, find) && |ms| > 0 {
        assert |find(phrases[..i + 1][i], text)| > 0;
      }
      if AnyMatch(phrases[..i + 1], text, find) && !AnyMatch(phrases[..i], text, find) {
        var k :| 0 <= k < i + 1 && |find(phrases[..i + 1][k], text)| > 0;
      }
    }
    assert phrases[..|phrases|] == phrases;
  }

  /** The key the message's context is pushed under: the DM key for "@user" channels. */
  function ContextKey(username: string, channel: string): string {
    if IsPrefix("@", channel) then DirectKey(username, channel[1..]) else channel
  }

  /** A DM where either party is an admin is never filtered. */
  predicate Waived(s: ChatServer, sub: Subscriber, channel: string)
    reads s, s.Subs(), sub
  {
    IsPrefix("@", channel) &&
    (sub.IsAdmin() || (var other := s.GetSubscriber(channel[1..]); other != null && other.IsAdmin()))
  }

  /** The filtered message: censored by the first firing filter when it censors. */
  function Filtered(filters: seq<MessageFilter>, msg: Message, find: (string, string) -> seq<string>): Message {
    var k := FirstFiring(filters, msg.message, find);
    if k.Some? && filters[k.value].censorMessage
    then msg.(message := CensorPhrases(filters[k.value].keywordPhrases, msg.message, find))
    else msg
  }

  /**
   * The filter loop of filterMessage: the first enabled filter with a
   * match, and the message as that filter leaves it.
   */
  method FirstFilter(filters: seq<MessageFilter>, msg: Message, find: (string, string) -> seq<string>)
    returns (filter: Option<MessageFilter>, matched: bool, out: Message)
    ensures var k := FirstFiring(filters, msg.message, find);
            && (matched <==> k.Some?)
            && filter == (if k.Some? then Some(filters[k.value]) else None)
            && out == Filtered(filters, msg, find)
  {
    ghost var k := FirstFiring(filters, msg.message, find);
    for i := 0 to |filters|
      invariant forall j :: 0 <= j < i ==> !Fires(filters[j], msg.message, find)
    {
      if filters[i].enabled {
        var hit, text := ScanFilter(filters[i], msg.message, find);
        if hit {
          assert k == Some(i);
          return Some(filters[i]), true, msg.(message := text);
        }
      }
    }
    return None, false, msg;
  }

  /** The context push of filterMessage: DMs under the DM key, public messages under the channel. */
  method PushContext(ctx: MessageContexts, username: string, channel: string, message: string, now: string)
    requires ctx.Valid()
    modifies ctx
    ensures ctx.Valid()
    ensures var key := ContextKey(username, channel);
            ctx.contexts == old(ctx.contexts)[key := LastN(old(ctx.Context(key)) + [ContextLine(now, username, message)], MessageContextSize)]
  {
    if IsPrefix("@", channel) {
      ctx.PushDirectMessage(username, channel[1..], username, message, now);
    } else {
      ctx.PushMessage(channel, username, message, now);
    }
  }

  /**
   * filterMessage: push the raw message onto its context, then (unless the
   * DM is waived) return the first enabled filter with a match, censoring
   * the message when that filter censors.
   */
  method FilterMessage(s: ChatServer, ctx: MessageContexts, sub: Subscriber, rawMsg: Message, msg: Message,
                       now: string, find: (string, string) -> seq<string>)
    returns (filter: Option<MessageFilter>, matched: bool, out: Message)
    requires ctx.Valid()
    modifies ctx
    ensures ctx.Valid()
    ensures var key := ContextKey(sub.username, msg.channel);
            ctx.contexts == old(ctx.contexts)[key := LastN(old(ctx.Context(key)) + [ContextLine(now, sub.username, rawMsg.message)], MessageContextSize)]
    ensures Waived(s, sub, msg.channel) ==> filter == None && !matched && out == msg
    ensures !Waived(s, sub, msg.channel) ==>
              var k := FirstFiring(s.cfg.messageFilters, msg.message, find);
              && (matched <==> k.Some?)
              && filter == (if k.Some? then Some(s.cfg.messageFilters[k.value]) else None)
              && out == Filtered(s.cfg.messageFilters, msg, find)
  {
    PushContext(ctx, sub.username, msg.channel, rawMsg.message, now);
    // A DM is waived when the sender, or the other party if online, is an admin.
    if Waived(s, sub, msg.channel) {
      return None, false, msg;
    }
    filter, matched, out := FirstFilter(s.cfg.messageFilters, msg, find);
  }
  /**
   * A filtered message keeps its length in bytes, censoring only replaces whole
   * characters by '*', and nothing but the text changes.
   */
  lemma FilteredKeepsLength(filters: seq<MessageFilter>, msg: Message, find: (string, string) -> seq<string>)
    ensures StarredFrom(Filtered(filters, msg, find).message, msg.message)
    ensures Utf8Len(Filtered(filters, msg, find).message) == Utf8Len(msg.message)
    ensures Filtered(filters, msg, find) == msg.(message := Filtered(filters, msg, find).message)
  {
    var k := FirstFiring(filters, msg.message, find);
    if k.Some? && filters[k.value].censorMessage {
      CensorPhrasesStars(filters[k.value].keywordPhrases, msg.message, find);
    } else {
      StarredRefl(msg.message);
    }
    StarredKeepsBytes(Filtered(filters, msg, find).message, msg.message);
  }
}
