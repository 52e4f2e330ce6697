/**
 * The legacy browser client (web/static/js/BareRTC.js): per-channel chat history
 * with scrollback trimming and unread counters, message reactions, takebacks,
 * its own video-flag builder and camera checks, and small display helpers.
 */
module LegacyClient {
  import opened Common
  import opened Messages
  import WebRtcClient

  /* ---------- Values ---------- */

  /** One line of a channel's history. `at` is the clock reading when it arrived. */
  datatype Entry = Entry(action: string, channel: string, username: string, message: string,
                         msgID: int, at: int, isChatServer: bool, isChatClient: bool)

  /** `channels[name]`: its history, when it was last updated, and its unread counter. */
  datatype ChannelState = ChannelState(history: seq<Entry>, updated: int, unread: nat)

  /** How pushHistory ended. */
  datatype PushOutcome = DroppedDM | HiddenImage | Appended

  /** `s` with every occurrence of `x` removed, order kept. */
  function Without(s: seq<string>, x: string): (r: seq<string>)
    ensures x !in r
    ensures forall y :: y in r <==> y in s && y != x
  {
    if |s| == 0 then []
    else if s[0] == x then Without(s[1..], x)
    else [s[0]] + Without(s[1..], x)
  }

  /** In a list without duplicates, splicing out the one occurrence of `x` is removing `x`. */
  lemma {:induction false} SpliceIsWithout(s: seq<string>, k: nat)
    requires NoDup(s) && k < |s|
    ensures s[..k] + s[k + 1..] == Without(s, s[k])
  {
    if k == 0 {
      assert s[..0] + s[1..] == s[1..];
      WithoutAbsent(s[1..], s[0]);
    } else {
      assert NoDup(s[1..]) by {
        forall i, j | 0 <= i < j < |s[1..]| ensures s[1..][i] != s[1..][j] {
          assert s[1..][i] == s[i + 1] && s[1..][j] == s[j + 1];
        }
      }
      SpliceIsWithout(s[1..], k - 1);
      assert s[1..][k - 1] == s[k];
      assert s[..k] + s[k + 1..] == [s[0]] + (s[1..][..k - 1] + s[1..][k..]);
    }
  }

  lemma {:induction false} WithoutAbsent(s: seq<string>, x: string)
    requires x !in s
    ensures Without(s, x) == s
  {
    if |s| > 0 {
      WithoutAbsent(s[1..], x);
      assert s == [s[0]] + s[1..];
    }
  }

  /** Removing from a list without duplicates keeps it without duplicates. */
  lemma {:induction false} WithoutNoDup(s: seq<string>, x: string)
    requires NoDup(s)
    ensures NoDup(Without(s, x))
  {
    if |s| > 0 {
      assert NoDup(s[1..]) by {
        forall i, j | 0 <= i < j < |s[1..]| ensures s[1..][i] != s[1..][j] {
          assert s[1..][i] == s[i + 1] && s[1..][j] == s[j + 1];
        }
      }
      WithoutNoDup(s[1..], x);
      if s[0] != x {
        var w := Without(s[1..], x);
        assert s[0] !in w by {
          assert s[0] !in s[1..];
        }
        assert NoDup([s[0]] + w) by {
          forall i, j | 0 <= i < j < |[s[0]] + w| ensures ([s[0]] + w)[i] != ([s[0]] + w)[j] {
            if i == 0 {
              assert ([s[0]] + w)[j] == w[j - 1];
            } else {
              assert ([s[0]] + w)[i] == w[i - 1] && ([s[0]] + w)[j] == w[j - 1];
            }
          }
        }
      }
    }
  }

  /* ---------- Reactions ---------- */

  /** The reactors of `(msgID, emoji)`, or none yet. */
  function ReactorsOf(m: map<int, map<string, seq<string>>>, msgID: int, emoji: string): seq<string> {
    if msgID in m && emoji in m[msgID] then m[msgID][emoji] else []
  }

  /** onReact's effect on one reactor list: a second identical reaction withdraws the first. */
  function Toggle(reactors: seq<string>, who: string): (r: seq<string>)
    ensures who in r <==> who !in reactors
    ensures forall x :: x != who ==> (x in r <==> x in reactors)
  {
    if who in reactors then Without(reactors, who) else reactors + [who]
  }

  /** Toggling keeps a reactor list free of duplicates. */
  lemma ToggleNoDup(reactors: seq<string>, who: string)
    requires NoDup(reactors)
    ensures NoDup(Toggle(reactors, who))
  {
    if who in reactors {
      WithoutNoDup(reactors, who);
    }
  }

  /** Reacting twice in a row with the same emoji leaves the list as it was before the first reaction. */
  lemma ToggleTwiceFromAbsent(reactors: seq<string>, who: string)
    requires who !in reactors
    ensures Toggle(Toggle(reactors, who), who) == reactors
  {
    assert who in reactors + [who];
    SpliceIsWithoutAppend(reactors, who);
  }

  lemma SpliceIsWithoutAppend(reactors: seq<string>, who: string)
    requires who !in reactors
    ensures Without(reactors + [who], who) == reactors
  {
    WithoutAppend(reactors, who);
    WithoutAbsent(reactors, who);
  }

  lemma {:induction false} WithoutAppend(s: seq<string>, who: string)
    ensures Without(s + [who], who) == Without(s, who)
  {
    if |s| > 0 {
      assert (s + [who])[1..] == s[1..] + [who];
      WithoutAppend(s[1..], who);
    } else {
      assert [who][1..] == [];
    }
  }

  /** The reaction table after onReact: the emoji key goes when its last reactor withdraws. */
  /**
   * onReact's loop over one reactor list: the first entry equal to `who` is
   * spliced out; when there is none, `who` is appended.
   */
  method ToggleReactor(orig: seq<string>, who: string) returns (list: seq<string>)
    requires NoDup(orig)
    ensures list == Toggle(orig, who) && NoDup(list)
  {
    list := orig;
    var unreact := false;
    var i := 0;
    ghost var k := 0;
    while i < |list|
      invariant 0 <= i
      invariant !unreact ==> list == orig && i <= |list| && forall j :: 0 <= j < i ==> list[j] != who
      invariant unreact ==> k < |orig| && orig[k] == who && list == orig[..k] + orig[k + 1..]
    {
      if list[i] == who {
        k := i;
        list := list[..i] + list[i + 1..];
        unreact := true;
      }
      i := i + 1;
    }
    ToggleNoDup(orig, who);
    if unreact {
      SpliceIsWithout(orig, k);
      return;
    }
    list := list + [who];
  }

  function Reacted(m: map<int, map<string, seq<string>>>, msgID: int, emoji: string, who: string)
    : map<int, map<string, seq<string>>>
  {
    var inner := if msgID in m then m[msgID] else map[];
    var after := Toggle(ReactorsOf(m, msgID, emoji), who);
    if |after| == 0 then m[msgID := inner - {emoji}] else m[msgID := inner[emoji := after]]
  }

  /* ---------- History helpers ---------- */

  /** The scrollback trim: keep the newest `scrollback` entries when there are more. */
  function Trimmed(h: seq<Entry>, scrollback: int): (r: seq<Entry>)
    ensures IsTail(r, h)
    ensures scrollback > 0 ==> |r| <= scrollback
    ensures scrollback <= 0 || |h| <= scrollback ==> r == h
  {
    if scrollback > 0 && |h| > scrollback then h[|h| - scrollback..] else h
  }

  /**
   * pushHistory's append into an initialised channel, seen from channel `current`:
   * stamp it, push the entry, trim to the scrollback, and count it unread unless
   * it is for `current`, a presence notice or from ChatServer.
   */
  function Pushed(chans: map<string, ChannelState>, e: Entry, scrollback: int, current: string)
    : map<string, ChannelState>
    requires e.channel in chans
  {
    var before := chans[e.channel];
    chans[e.channel := ChannelState(
      Trimmed(before.history + [e], scrollback), e.at,
      before.unread + (if current != e.channel && e.action != "presence" && !e.isChatServer then 1 else 0))]
  }

  /**
   * After a push the channel holds at most `scrollback` entries (when positive),
   * the newest ones in arrival order ending with the new entry; the unread counter
   * moves by exactly one, only for a chat message in another channel; other
   * channels are untouched.
   */
  lemma PushedKeepsNewest(chans: map<string, ChannelState>, e: Entry, scrollback: int, current: string)
    requires e.channel in chans
    ensures var r := Pushed(chans, e, scrollback, current);
            var h := r[e.channel].history;
            var full := chans[e.channel].history + [e];
            r.Keys == chans.Keys
            && (forall c :: c in chans && c != e.channel ==> r[c] == chans[c])
            && IsTail(h, full) && |h| >= 1 && h[|h| - 1] == e
            && (scrollback > 0 ==> |h| == if |full| <= scrollback then |full| else scrollback)
            && (scrollback <= 0 ==> h == full)
            && (r[e.channel].unread == chans[e.channel].unread + 1
                <==> current != e.channel && e.action != "presence" && !e.isChatServer)
            && (r[e.channel].unread == chans[e.channel].unread
                <==> !(current != e.channel && e.action != "presence" && !e.isChatServer))
  {
    var full := chans[e.channel].history + [e];
    var h := Trimmed(full, scrollback);
    assert h[|h| - 1] == full[|full| - 1];
  }

  /** `updated` recorded on a new channel, and the map after initHistory. */
  function InitHistory(chans: map<string, ChannelState>, ch: string, now: int): (r: map<string, ChannelState>)
    ensures ch in r && r.Keys == chans.Keys + {ch}
    ensures forall c :: c in chans ==> r[c] == chans[c]
  {
    if ch in chans then chans else chans[ch := ChannelState([], now, 0)]
  }

  /** initHistory is idempotent: a second call (at any time) changes nothing. */
  lemma InitHistoryIdempotent(chans: map<string, ChannelState>, ch: string, now1: int, now2: int)
    ensures InitHistory(InitHistory(chans, ch, now1), ch, now2) == InitHistory(chans, ch, now1)
  {
  }

  /** Markup wrapped around an image when images are collapsed (abbreviated: the ID and the message). */
  function CollapsedImage(messageID: int, message: string): (r: string)
    ensures Contains(r, message)
  {
    ContainsConcat("<div id=\"img-collapse-" + IntToString(messageID) + "\">", message, "</div>");
    "<div id=\"img-collapse-" + IntToString(messageID) + "\">" + message + "</div>"
  }

  /** The position of the first message with this ID. */
  function IndexOfMsg(h: seq<Entry>, msgID: int): (r: Option<nat>)
    ensures r.Some? ==> r.value < |h| && h[r.value].msgID == msgID
                        && forall j :: 0 <= j < r.value ==> h[j].msgID != msgID
    ensures r.None? ==> forall j :: 0 <= j < |h| ==> h[j].msgID != msgID
  {
    if |h| == 0 then None
    else if h[0].msgID == msgID then Some(0)
    else match IndexOfMsg(h[1..], msgID)
      case None => None
      case Some(i) => Some(i + 1)
  }

  /** The inner scan of onTakeback: the first history entry carrying the message id. */
  method ScanHistory(h: seq<Entry>, msgID: int) returns (r: Option<nat>)
    ensures r == IndexOfMsg(h, msgID)
  {
    var i := 0;
    while i < |h|
      invariant 0 <= i <= |h|
      invariant forall j :: 0 <= j < i ==> h[j].msgID != msgID
    {
      if h[i].msgID == msgID {
        return Some(i);
      }
      i := i + 1;
    }
    return None;
  }

  /** The first channel (in key order) holding the message, and its position there. */
  function FindMessage(keys: seq<string>, chans: map<string, ChannelState>, msgID: int): (r: Option<(string, nat)>)
    ensures r.Some? ==> r.value.0 in keys && r.value.0 in chans
                        && IndexOfMsg(chans[r.value.0].history, msgID) == Some(r.value.1)
    ensures r.None? ==> forall c :: c in keys && c in chans ==> IndexOfMsg(chans[c].history, msgID).None?
  {
    if |keys| == 0 then None
    else if keys[0] in chans && IndexOfMsg(chans[keys[0]].history, msgID).Some? then
      Some((keys[0], IndexOfMsg(chans[keys[0]].history, msgID).value))
    else FindMessage(keys[1..], chans, msgID)
  }

  /** The outer scan of onTakeback: channels in key order, each history from the start. */
  method FindMessageScan(keys: seq<string>, chans: map<string, ChannelState>, msgID: int) returns (r: Option<(string, nat)>)
    ensures r == FindMessage(keys, chans, msgID)
  {
    var n := 0;
    while n < |keys|
      invariant 0 <= n <= |keys|
      invariant FindMessage(keys, chans, msgID) == FindMessage(keys[n..], chans, msgID)
    {
      if keys[n] in chans {
        var at := ScanHistory(chans[keys[n]].history, msgID);
        if at.Some? {
          return Some((keys[n], at.value));
        }
      }
      assert keys[n..][1..] == keys[n + 1..];
      n := n + 1;
    }
    return None;
  }

  /* ---------- Pure display helpers ---------- */

  /** normalizeUsername: strip every leading '@' of a DM channel name. */
  function NormalizeUsername(channel: string): (r: string)
    ensures IsSuffix(r, channel)
    ensures r == [] || r[0] != '@'
    ensures forall i :: 0 <= i < |channel| - |r| ==> channel[i] == '@'
  {
    if |channel| > 0 && channel[0] == '@' then NormalizeUsername(channel[1..]) else channel
  }

  /** A name that does not start with '@' is left as it is, whatever '@' it holds later on. */
  lemma {:induction false} NormalizeKeepsPlainNames(name: string, n: nat)
    requires name == [] || name[0] != '@'
    ensures NormalizeUsername(Repeat('@', n) + name) == name
  {
    if n > 0 {
      var s := Repeat('@', n) + name;
      assert s[0] == '@';
      assert s[1..] == Repeat('@', n - 1) + name;
      assert NormalizeUsername(s) == NormalizeUsername(s[1..]);
      NormalizeKeepsPlainNames(name, n - 1);
    } else {
      assert Repeat('@', 0) + name == name;
    }
  }

  /** A clock reading: the hours and minutes of a Date. */
  datatype Clock = Clock(hours: nat, minutes: nat)

  predicate ValidClock(c: Clock) {
    c.hours < 24 && c.minutes < 60
  }

  /** The three parts prettyDate prints: 12-hour hour, zero-padded minutes, "am" or "pm". */
  datatype PrettyParts = PrettyParts(hour: nat, minutes: string, suffix: string)

  /** The hour on a 12-hour dial: `hours % 12 || 12`. */
  function Hour12(hours: nat): (h: nat)
    ensures 1 <= h <= 12
  {
    if hours % 12 == 0 then 12 else hours % 12
  }

  /** `String(minutes).padStart(2, '0')`. */
  function PadMinutes(minutes: nat): (r: string)
    requires minutes < 60
    ensures |r| == 2
    ensures minutes < 10 ==> r == "0" + NatToString(minutes)
    ensures minutes >= 10 ==> r == NatToString(minutes)
  {
    assert minutes >= 10 ==> NatToString(minutes) == NatToString(minutes / 10) + [Digit(minutes % 10)];
    [Digit(minutes / 10), Digit(minutes % 10)]
  }

  /** prettyDate's parts as written: "pm" from 11 o'clock. */
  function PrettyPartsAsWritten(c: Clock): PrettyParts
    requires ValidClock(c)
  {
    PrettyParts(Hour12(c.hours), PadMinutes(c.minutes), if c.hours >= 11 then "pm" else "am")
  }

  /** prettyDate's parts with the evident intent: "pm" from noon. */
  function PrettyPartsOf(c: Clock): PrettyParts
    requires ValidClock(c)
  {
    PrettyParts(Hour12(c.hours), PadMinutes(c.minutes), if c.hours >= 12 then "pm" else "am")
  }

  /** `${hour}:${minutes} ${ampm}`. */
  function Render(p: PrettyParts): string {
    NatToString(p.hour) + ":" + p.minutes + " " + p.suffix
  }

  /** The rendering is never empty and ends with a space and the suffix. */
  lemma RenderSuffix(p: PrettyParts)
    ensures Render(p) != "" && IsSuffix(" " + p.suffix, Render(p))
  {
    assert Render(p) == (NatToString(p.hour) + ":" + p.minutes) + (" " + p.suffix);
  }

  /** prettyDate as written; an undefined date prints as "". */
  function PrettyDateAsWritten(date: Option<Clock>): (r: string)
    requires date.Some? ==> ValidClock(date.value)
    ensures date.None? <==> r == ""
    ensures date.Some? ==> IsSuffix(if date.value.hours >= 11 then " pm" else " am", r)
  {
    if date.None? then "" else RenderSuffix(PrettyPartsAsWritten(date.value)); Render(PrettyPartsAsWritten(date.value))
  }

  /** prettyDate as the model uses it ("pm" from noon). */
  function PrettyDate(date: Option<Clock>): (r: string)
    requires date.Some? ==> ValidClock(date.value)
    ensures date.None? <==> r == ""
    ensures date.Some? ==> IsSuffix(if date.value.hours >= 12 then " pm" else " am", r)
  {
    if date.None? then "" else RenderSuffix(PrettyPartsOf(date.value)); Render(PrettyPartsOf(date.value))
  }

  /** The 24-hour reading a 12-hour hour and suffix stand for. */
  function Hours24(hour: nat, suffix: string): nat {
    if suffix == "pm" then (if hour == 12 then 12 else hour + 12)
    else (if hour == 12 then 0 else hour)
  }

  /** The corrected rendering loses nothing: the hour (1..12), two-digit minutes and suffix give back the clock. */
  lemma PrettyPartsRecoverClock(c: Clock)
    requires ValidClock(c)
    ensures var p := PrettyPartsOf(c);
            1 <= p.hour <= 12 && |p.minutes| == 2 && Hours24(p.hour, p.suffix) == c.hours
  {
  }

  /** As written, 11 in the morning and 11 at night print the same, both as "pm". */
  lemma PrettyDateElevenAmIsPm()
    ensures PrettyPartsAsWritten(Clock(11, 30)) == PrettyPartsAsWritten(Clock(23, 30))
    ensures PrettyPartsAsWritten(Clock(11, 30)).suffix == "pm"
    ensures PrettyPartsOf(Clock(11, 30)).suffix == "am"
  {
  }

  /** Two different clock readings never print the same corrected parts. */
  lemma PrettyPartsInjective(c: Clock, d: Clock)
    requires ValidClock(c) && ValidClock(d) && PrettyPartsOf(c) == PrettyPartsOf(d)
    ensures c == d
  {
    PrettyPartsRecoverClock(c);
    PrettyPartsRecoverClock(d);
    PadMinutesInjective(c.minutes, d.minutes);
  }

  lemma PadMinutesInjective(a: nat, b: nat)
    requires a < 60 && b < 60 && PadMinutes(a) == PadMinutes(b)
    ensures a == b
  {
    assert PadMinutes(a)[0] == Digit(a / 10) && PadMinutes(a)[1] == Digit(a % 10);
    assert PadMinutes(b)[0] == Digit(b / 10) && PadMinutes(b)[1] == Digit(b % 10);
    DigitInjective(a / 10, b / 10);
    DigitInjective(a % 10, b % 10);
  }

  /* ---------- Legacy camera helpers ---------- */

  /** The legacy camera settings myVideoFlag reads. */
  datatype LegacyWebcam = LegacyWebcam(active: bool, muted: bool, nsfw: bool, mutual: bool, mutualOpen: bool)

  /** The legacy table puts IsTalking on bit 3, where the server now has NonExplicit. */
  const LegacyVideoFlagIsTalking: VideoStatus := 8

  /**
   * myVideoFlag (legacy): the flag word carries exactly the camera's options.
   * Each flag bit is set iff its setting is on, the IsTalking and VIP bits
   * never are, and an inactive camera reports nothing.
   */
  function LegacyMyVideoFlag(cam: LegacyWebcam): (status: VideoStatus)
    ensures !cam.active ==> status == 0
    ensures cam.active ==>
              Has(status, Active) && (Has(status, Muted) <==> cam.muted) && (Has(status, NSFW) <==> cam.nsfw)
              && (Has(status, MutualRequired) <==> cam.mutual) && (Has(status, MutualOpen) <==> cam.mutualOpen)
              && status & LegacyVideoFlagIsTalking == 0 && !Has(status, OnlyVIP)
  {
    if !cam.active then 0
    else
      LegacyFlagWord(cam.muted, cam.nsfw, cam.mutual, cam.mutualOpen);
      VideoFlagActive
      | (if cam.muted then VideoFlagMuted else 0)
      | (if cam.nsfw then VideoFlagNSFW else 0)
      | (if cam.mutual then VideoFlagMutualRequired else 0)
      | (if cam.mutualOpen then VideoFlagMutualOpen else 0)
  }

  lemma LegacyFlagWord(m: bool, n: bool, u: bool, o: bool)
    ensures var v: VideoStatus := 1 | (if m then 4 else 0) | (if n then 2 else 0) | (if u then 16 else 0) | (if o then 32 else 0);
            v & 1 == 1 && (v & 4 == 4 <==> m) && (v & 2 == 2 <==> n) && (v & 16 == 16 <==> u)
            && (v & 32 == 32 <==> o) && v & 8 == 0 && v & 64 == 0
  {
    var v: VideoStatus := 1 | (if m then 4 else 0) | (if n then 2 else 0) | (if u then 16 else 0) | (if o then 32 else 0);
    assert v < 64;
  }

  /** isVideoNotAllowed (legacy): their mutual camera needs ours on, and we never watch someone we muted. */
  function LegacyIsVideoNotAllowed(video: VideoStatus, camActive: bool, mutedUser: bool): (r: bool)
    ensures r <==> (Has(video, Active) && Has(video, MutualRequired) && !camActive) || mutedUser
  {
    (Has(video, Active) && Has(video, MutualRequired) && !camActive) || mutedUser
  }

  /**
   * The current client refuses everything the legacy one did, except cameras
   * that expressly invited us: its reasons are a superset.
   */
  lemma LegacyRefusalsStillRefused(v: WebRtcClient.Viewer, cam: WebRtcClient.Webcam, user: WebRtcClient.WhoRow,
                                   listedVip: Option<bool>, mutedUser: bool, bootedUser: bool)
    requires LegacyIsVideoNotAllowed(user.video, cam.active, mutedUser)
    requires !WebRtcClient.InvitedActive(user)
    ensures WebRtcClient.IsVideoNotAllowed(v, cam, user, listedVip, mutedUser, bootedUser)
  {
    WebRtcClient.IsVideoNotAllowedReasons(v, cam, user, listedVip, mutedUser, bootedUser);
  }

  /* ---------- DM list ---------- */

  /** One row of activeDMs. */
  datatype DMRow = DMRow(channel: string, name: string, updated: int, unread: nat)

  /** The DM channels (names starting with '@') in key order, before sorting. */
  function DMRows(keys: seq<string>, chans: map<string, ChannelState>): (r: seq<DMRow>)
    ensures forall i :: 0 <= i < |r| ==> |r[i].channel| > 0 && r[i].channel[0] == '@'
                                         && r[i].name == r[i].channel[1..] && r[i].channel in keys
  {
    if |keys| == 0 then []
    else
      var rest := DMRows(keys[1..], chans);
      if keys[0] in chans && |keys[0]| > 0 && keys[0][0] == '@' then
        [DMRow(keys[0], keys[0][1..], chans[keys[0]].updated, chans[keys[0]].unread)] + rest
      else rest
  }

  /** Most recently updated first. */
  predicate NewestFirst(rows: seq<DMRow>) {
    forall i, j :: 0 <= i < j < |rows| ==> rows[i].updated >= rows[j].updated
  }

  /**
   * Insert a row after every strictly more recent row and before the rows
   * no more recent than it: `x` came earlier in the input than all of
   * `rows`, so a stable sort keeps it ahead of its ties.
   */
  function InsertRow(x: DMRow, rows: seq<DMRow>): (r: seq<DMRow>)
    ensures multiset(r) == multiset(rows) + multiset{x}
  {
    if |rows| == 0 || rows[0].updated <= x.updated then [x] + rows
    else
      assert rows == [rows[0]] + rows[1..];
      [rows[0]] + InsertRow(x, rows[1..])
  }

  /** `Array.prototype.sort` with `b.updated - a.updated`, a stable sort. */
  function SortNewestFirst(rows: seq<DMRow>): (r: seq<DMRow>)
    ensures multiset(r) == multiset(rows)
  {
    if |rows| == 0 then []
    else
      assert rows == [rows[0]] + rows[1..];
      InsertRow(rows[0], SortNewestFirst(rows[1..]))
  }

  lemma {:induction false} InsertRowSorted(x: DMRow, rows: seq<DMRow>)
    requires NewestFirst(rows)
    ensures NewestFirst(InsertRow(x, rows))
  {
    if |rows| > 0 && rows[0].updated > x.updated {
      InsertRowSorted(x, rows[1..]);
      var r := InsertRow(x, rows[1..]);
      assert forall k :: 0 <= k < |r| ==> r[k] in multiset(rows[1..]) + multiset{x};
      forall k | 0 <= k < |r| ensures rows[0].updated >= r[k].updated {
        assert r[k] in multiset(rows[1..]) + multiset{x};
        if r[k] != x {
          assert r[k] in rows[1..];
        }
      }
    }
  }

  lemma {:induction false} SortNewestFirstSorted(rows: seq<DMRow>)
    ensures NewestFirst(SortNewestFirst(rows))
  {
    if |rows| > 0 {
      SortNewestFirstSorted(rows[1..]);
      InsertRowSorted(rows[0], SortNewestFirst(rows[1..]));
    }
  }

  /** The rows updated at time `t`, in their order. */
  function Ties(rows: seq<DMRow>, t: int): seq<DMRow> {
    if |rows| == 0 then []
    else (if rows[0].updated == t then [rows[0]] else []) + Ties(rows[1..], t)
  }

  /** Inserting `x` puts it ahead of every row it ties with. */
  lemma {:induction false} InsertRowTies(x: DMRow, rows: seq<DMRow>, t: int)
    ensures Ties(InsertRow(x, rows), t) == (if x.updated == t then [x] else []) + Ties(rows, t)
  {
    if |rows| == 0 || rows[0].updated <= x.updated {
      assert ([x] + rows)[1..] == rows;
    } else {
      InsertRowTies(x, rows[1..], t);
      assert ([rows[0]] + InsertRow(x, rows[1..]))[1..] == InsertRow(x, rows[1..]);
    }
  }

  /**
   * The sort is stable: the rows updated at any one time keep their input
   * order, as `Array.prototype.sort` guarantees.
   */
  lemma {:induction false} SortNewestFirstStable(rows: seq<DMRow>, t: int)
    ensures Ties(SortNewestFirst(rows), t) == Ties(rows, t)
  {
    if |rows| > 0 {
      SortNewestFirstStable(rows[1..], t);
      InsertRowTies(rows[0], SortNewestFirst(rows[1..]), t);
    }
  }

  /**
   * activeDMs: the open DM threads, newest first; the sort neither loses nor
   * invents a thread, and every row names its partner without the '@'.
   */
  function ActiveDMs(keys: seq<string>, chans: map<string, ChannelState>): (r: seq<DMRow>)
    ensures multiset(r) == multiset(DMRows(keys, chans))
  {
    SortNewestFirst(DMRows(keys, chans))
  }

  lemma ActiveDMsNewestFirst(keys: seq<string>, chans: map<string, ChannelState>)
    ensures NewestFirst(ActiveDMs(keys, chans))
    ensures forall t :: Ties(ActiveDMs(keys, chans), t) == Ties(DMRows(keys, chans), t)
    ensures forall row :: row in ActiveDMs(keys, chans) ==>
              |row.channel| > 0 && row.channel[0] == '@' && row.name == row.channel[1..]
  {
    SortNewestFirstSorted(DMRows(keys, chans));
    var rows := DMRows(keys, chans);
    forall t ensures Ties(ActiveDMs(keys, chans), t) == Ties(rows, t) {
      SortNewestFirstStable(rows, t);
    }
    forall row | row in ActiveDMs(keys, chans)
      ensures |row.channel| > 0 && row.channel[0] == '@' && row.name == row.channel[1..]
    {
      assert row in multiset(rows);
    }
  }

  /** The handles a logged-off peer's record closes, offerer first. */
  function SidesOf(u: string, offerer: bool, answerer: bool): (r: seq<(string, string)>)
    ensures (u, "offerer") in r <==> offerer
    ensures (u, "answerer") in r <==> answerer
    ensures |r| <= 2
  {
    (if offerer then [(u, "offerer")] else []) + (if answerer then [(u, "answerer")] else [])
  }

  /* ---------- The chat application state ---------- */

  class ChatApp {
    /** `this.channels`, and its keys in insertion order (the order of `Object.keys`). */
    var channels: map<string, ChannelState>
    var channelKeys: seq<string>
    /** `this.messageReactions[msgID][emoji]`: who reacted, in order. */
    var messageReactions: map<int, map<string, seq<string>>>

    /** Read-only context: the current channel, our username, preferences and the Who List's operator bits. */
    const channel: string
    const username: string
    const scrollback: int
    const closeDMs: bool
    const imageDisplaySetting: string
    const whoOp: map<string, bool>

    /** Legacy WebRTC registry: whether a peer record has an offerer or answerer handle. */
    var pcOfferer: map<string, bool>
    var pcAnswerer: map<string, bool>
    var streams: set<string>
    var muted: set<string>
    var poppedOut: set<string>
    var watching: set<string>
    var frozenStreamDetected: set<string>
    var frozenStreamInterval: set<string>
    /** Connections closed so far, as (username, "offerer"/"answerer"). */
    var closedSides: seq<(string, string)>
    /** `watch` messages sent; false means unwatch. */
    var sentWatch: seq<(string, bool)>

    ghost predicate Valid()
      reads this
    {
      NoDup(channelKeys)
      && (forall c :: c in channels <==> c in channelKeys)
      && (forall id, e :: id in messageReactions && e in messageReactions[id] ==> NoDup(messageReactions[id][e]))
      && pcOfferer.Keys == pcAnswerer.Keys
    }

    constructor (channel: string, username: string, scrollback: int, closeDMs: bool,
                 imageDisplaySetting: string, whoOp: map<string, bool>)
      ensures Valid()
      ensures this.channel == channel && this.username == username && this.scrollback == scrollback
      ensures this.closeDMs == closeDMs && this.imageDisplaySetting == imageDisplaySetting && this.whoOp == whoOp
      ensures channels == map[] && channelKeys == [] && messageReactions == map[]
      ensures pcOfferer == map[] && pcAnswerer == map[] && streams == {} && muted == {} && poppedOut == {}
      ensures watching == {} && frozenStreamDetected == {} && frozenStreamInterval == {}
      ensures closedSides == [] && sentWatch == []
    {
      this.channel, this.username, this.scrollback := channel, username, scrollback;
      this.closeDMs, this.imageDisplaySetting, this.whoOp := closeDMs, imageDisplaySetting, whoOp;
      channels, channelKeys, messageReactions := map[], [], map[];
      pcOfferer, pcAnswerer := map[], map[];
      streams, muted, poppedOut, watching := {}, {}, {}, {};
      frozenStreamDetected, frozenStreamInterval := {}, {};
      closedSides, sentWatch := [], [];
    }

    /** initHistory(channel) at time `now`. */
    method InitChannel(ch: string, now: int)
      requires Valid()
      modifies this`channels, this`channelKeys
      ensures Valid()
      ensures channels == InitHistory(old(channels), ch, now)
      ensures channelKeys == if ch in old(channels) then old(channelKeys) else old(channelKeys) + [ch]
    {
      if ch !in channels {
        channels := channels[ch := ChannelState([], now, 0)];
        channelKeys := channelKeys + [ch];
      }
    }

    /**
     * pushHistory: add a message to a channel's history (the current one when
     * `ch` is empty), trimmed to the scrollback, and count it as unread unless
     * we are looking at that channel or it is a presence or ChatServer notice.
     */
    method PushHistory(ch: string, sender: string, message: string, action: string,
                       isChatServer: bool, isChatClient: bool, messageID: int, now: int)
      returns (outcome: PushOutcome)
      requires Valid()
      modifies this`channels, this`channelKeys
      ensures Valid()
      ensures var c := if ch == "" then channel else ch;
              var dropped := closeDMs && |c| > 0 && c[0] == '@' && sender != username && c !in old(channels)
                             && !(sender in whoOp && whoOp[sender]);
              var hasImage := Contains(message, "<img");
              (outcome == DroppedDM <==> dropped)
              && (outcome == HiddenImage <==> !dropped && hasImage && imageDisplaySetting == "hide")
              && (outcome == DroppedDM ==> channels == old(channels) && channelKeys == old(channelKeys))
              && (outcome != DroppedDM ==>
                    channelKeys == if c in old(channels) then old(channelKeys) else old(channelKeys) + [c])
              && (outcome == HiddenImage ==> channels == InitHistory(old(channels), c, now))
              && (outcome == Appended ==>
                    var text := if hasImage && imageDisplaySetting == "collapse"
                                then CollapsedImage(messageID, message) else message;
                    var entry := Entry(action, c, sender, text, messageID, now, isChatServer, isChatClient);
                    channels == Pushed(InitHistory(old(channels), c, now), entry, scrollback, channel))
    {
      var c := ch;
      if c == "" {
        c := channel;
      }
      if closeDMs && |c| > 0 && c[0] == '@' {
        var isSenderOp := sender in whoOp && whoOp[sender];
        if sender != username && c !in channels && !isSenderOp {
          return DroppedDM;
        }
      }
      InitChannel(c, now);
      var text := message;
      if Contains(message, "<img") {
        if imageDisplaySetting == "hide" {
          return HiddenImage;
        } else if imageDisplaySetting == "collapse" {
          text := CollapsedImage(messageID, message);
        }
      }
      AppendEntry(Entry(action, c, sender, text, messageID, now, isChatServer, isChatClient));
      return Appended;
    }

    /** pushHistory's append: stamp the channel, push, trim to the scrollback, count unread. */
    method AppendEntry(e: Entry)
      requires Valid() && e.channel in channels
      modifies this`channels
      ensures Valid()
      ensures channels == Pushed(old(channels), e, scrollback, channel)
    {
      var state := channels[e.channel];
      var history := state.history + [e];
      if scrollback > 0 && |history| > scrollback {
        history := history[|history| - scrollback..];
      }
      var unread := state.unread;
      if channel != e.channel {
        if e.action != "presence" && !e.isChatServer {
          unread := unread + 1;
        }
      }
      channels := channels[e.channel := ChannelState(history, e.at, unread)];
    }

    /**
     * onReact: toggle `who` in the reactor list of `(msgID, emoji)`, by the
     * source's own scan-and-splice loop.
     */
    method OnReact(msgID: int, who: string, emoji: string)
      requires Valid()
      modifies this`messageReactions
      ensures Valid()
      ensures messageReactions == Reacted(old(messageReactions), msgID, emoji, who)
    {
      var inner := if msgID in messageReactions then messageReactions[msgID] else map[];
      var orig := if emoji in inner then inner[emoji] else [];
      assert orig == ReactorsOf(messageReactions, msgID, emoji);
      var list := ToggleReactor(orig, who);
      if |list| == 0 {
        messageReactions := messageReactions[msgID := inner - {emoji}];
      } else {
        messageReactions := messageReactions[msgID := inner[emoji := list]];
      }
    }

    /**
     * onTakeback: remove the first message with this ID, searching the channels
     * in key order; with no match nothing changes.
     */
    method OnTakeback(msgID: int) returns (found: bool)
      requires Valid()
      modifies this`channels
      ensures Valid()
      ensures var hit := FindMessage(channelKeys, old(channels), msgID);
              found == hit.Some?
              && (hit.None? ==> channels == old(channels))
              && (hit.Some? ==>
                    var c := hit.value.0;
                    var h := old(channels)[c].history;
                    channels == old(channels)[c := old(channels)[c].(history := h[..hit.value.1] + h[hit.value.1 + 1..])])
    {
      var hit := FindMessageScan(channelKeys, channels, msgID);
      if hit.None? {
        return false;
      }
      var (c, at) := hit.value;
      var h := channels[c].history;
      channels := channels[c := channels[c].(history := h[..at] + h[at + 1..])];
      return true;
    }

    /**
     * closeVideo (legacy): the viewer side and the broadcaster side close only
     * their own handle and drop the record; a logged-off peer loses everything.
     * There is no mutual-open exception and no sweep of other records.
     */
    method CloseVideo(u: string, role: WebRtcClient.CloseRole)
      requires Valid()
      modifies this`frozenStreamDetected, this`frozenStreamInterval, this`streams, this`muted,
               this`poppedOut, this`pcOfferer, this`pcAnswerer, this`closedSides, this`sentWatch, this`watching
      ensures Valid()
      ensures frozenStreamDetected == old(frozenStreamDetected) - {u}
      ensures frozenStreamInterval == old(frozenStreamInterval) - {u}
      ensures role == WebRtcClient.Offerer ==>
                var hangUp := u in old(pcOfferer) && old(pcOfferer)[u];
                streams == old(streams) - {u} && muted == old(muted) - {u} && poppedOut == old(poppedOut) - {u}
                && watching == old(watching) && sentWatch == old(sentWatch) + [(u, false)]
                && pcOfferer == (if hangUp then old(pcOfferer) - {u} else old(pcOfferer))
                && pcAnswerer == (if hangUp then old(pcAnswerer) - {u} else old(pcAnswerer))
                && closedSides == old(closedSides) + (if hangUp then [(u, "offerer")] else [])
      ensures role == WebRtcClient.Answerer ==>
                var hangUp := u in old(pcAnswerer) && old(pcAnswerer)[u];
                streams == old(streams) && muted == old(muted) && poppedOut == old(poppedOut)
                && watching == old(watching) && sentWatch == old(sentWatch)
                && pcOfferer == (if hangUp then old(pcOfferer) - {u} else old(pcOfferer))
                && pcAnswerer == (if hangUp then old(pcAnswerer) - {u} else old(pcAnswerer))
                && closedSides == old(closedSides) + (if hangUp then [(u, "answerer")] else [])
      ensures role == WebRtcClient.LoggedOff ==>
                var had := u in old(pcOfferer);
                streams == old(streams) - {u} && watching == old(watching) - {u}
                && u !in pcOfferer && pcOfferer == old(pcOfferer) - {u} && pcAnswerer == old(pcAnswerer) - {u}
                && muted == (if had then old(muted) - {u} else old(muted))
                && poppedOut == (if had then old(poppedOut) - {u} else old(poppedOut))
                && sentWatch == old(sentWatch) + [(u, false)]
                && closedSides == old(closedSides) + (if had then SidesOf(u, old(pcOfferer)[u], old(pcAnswerer)[u]) else [])
    {
      frozenStreamDetected := frozenStreamDetected - {u};
      frozenStreamInterval := frozenStreamInterval - {u};
      match role {
        case Offerer => CloseOffererSide(u);
        case Answerer => CloseAnswererSide(u);
        case LoggedOff => ClosePeerLoggedOff(u);
      }
    }

    method CloseOffererSide(u: string)
      requires Valid()
      modifies this`streams, this`muted, this`poppedOut, this`pcOfferer, this`pcAnswerer, this`closedSides,
               this`sentWatch
      ensures Valid()
      ensures var hangUp := u in old(pcOfferer) && old(pcOfferer)[u];
              streams == old(streams) - {u} && muted == old(muted) - {u} && poppedOut == old(poppedOut) - {u}
              && sentWatch == old(sentWatch) + [(u, false)]
              && pcOfferer == (if hangUp then old(pcOfferer) - {u} else old(pcOfferer))
                && pcAnswerer == (if hangUp then old(pcAnswerer) - {u} else old(pcAnswerer))
              && closedSides == old(closedSides) + (if hangUp then [(u, "offerer")] else [])
    {
      streams, muted, poppedOut := streams - {u}, muted - {u}, poppedOut - {u};
      if u in pcOfferer && pcOfferer[u] {
        closedSides := closedSides + [(u, "offerer")];
        pcOfferer, pcAnswerer := pcOfferer - {u}, pcAnswerer - {u};
      }
      sentWatch := sentWatch + [(u, false)];
    }

    method CloseAnswererSide(u: string)
      requires Valid()
      modifies this`pcOfferer, this`pcAnswerer, this`closedSides
      ensures Valid()
      ensures var hangUp := u in old(pcAnswerer) && old(pcAnswerer)[u];
              pcOfferer == (if hangUp then old(pcOfferer) - {u} else old(pcOfferer))
              && pcAnswerer == (if hangUp then old(pcAnswerer) - {u} else old(pcAnswerer))
              && closedSides == old(closedSides) + (if hangUp then [(u, "answerer")] else [])
    {
      if u in pcAnswerer && pcAnswerer[u] {
        closedSides := closedSides + [(u, "answerer")];
        pcOfferer, pcAnswerer := pcOfferer - {u}, pcAnswerer - {u};
      }
    }

    method ClosePeerLoggedOff(u: string)
      requires Valid()
      modifies this`streams, this`muted, this`poppedOut, this`pcOfferer, this`pcAnswerer, this`closedSides,
               this`sentWatch, this`watching
      ensures Valid()
      ensures var had := u in old(pcOfferer);
              streams == old(streams) - {u} && watching == old(watching) - {u}
              && pcOfferer == old(pcOfferer) - {u} && pcAnswerer == old(pcAnswerer) - {u}
              && muted == (if had then old(muted) - {u} else old(muted))
              && poppedOut == (if had then old(poppedOut) - {u} else old(poppedOut))
              && sentWatch == old(sentWatch) + [(u, false)]
              && closedSides == old(closedSides) + (if had then SidesOf(u, old(pcOfferer)[u], old(pcAnswerer)[u]) else [])
    {
      streams, watching := streams - {u}, watching - {u};
      if u in pcOfferer {
        closedSides := closedSides + SidesOf(u, pcOfferer[u], pcAnswerer[u]);
        pcOfferer, pcAnswerer := pcOfferer - {u}, pcAnswerer - {u};
        muted, poppedOut := muted - {u}, poppedOut - {u};
      }
      sentWatch := sentWatch + [(u, false)];
    }
  }
}
