/**
 * Echoing recent public messages to users who join (pkg/echo_messages.go).
 * The echo buffers are one map from channel ID to the channel's recent
 * messages, appended to and trimmed in place; takebacks splice messages out
 * of them. Go's map iteration order is unspecified, so the order in which
 * SendEchoedMessages visits the channels is an input.
 */
module EchoMessages {
  import opened Common
  import opened Messages
  import opened Config
  import opened Server

  /** A buffered message with the time it was stored (RFC 3339 text). */
  datatype Echo = Echo(msg: Message, timestamp: string)

  /** No two buffered messages share a message ID. */
  predicate UniqueIDs(buf: seq<Echo>) {
    forall i, j :: 0 <= i < j < |buf| ==> buf[i].msg.messageID != buf[j].msg.messageID
  }

  /** The buffer without the messages that have this ID, in the same order. */
  function WithoutID(buf: seq<Echo>, msgID: int): (r: seq<Echo>)
    ensures forall x :: x in r <==> x in buf && x.msg.messageID != msgID
    ensures |r| <= |buf|
  {
    if |buf| == 0 then []
    else if buf[0].msg.messageID == msgID then WithoutID(buf[1..], msgID)
    else [buf[0]] + WithoutID(buf[1..], msgID)
  }

  /** With unique IDs, removing the message at `k` is removing its ID. */
  lemma {:induction false} WithoutOnly(buf: seq<Echo>, msgID: int, k: nat)
    requires k < |buf| && buf[k].msg.messageID == msgID
    requires forall j :: 0 <= j < |buf| && j != k ==> buf[j].msg.messageID != msgID
    ensures WithoutID(buf, msgID) == buf[..k] + buf[k + 1..]
    decreases |buf|, 1
  {
    OthersInTail(buf, msgID, k);
    if k > 0 {
      WithoutOnlyLater(buf, msgID, k);
    } else {
      WithoutAbsent(buf[1..], msgID);
    }
  }

  /** WithoutOnly's step: a first message without the ID is kept in front. */
  lemma {:induction false} WithoutOnlyLater(buf: seq<Echo>, msgID: int, k: nat)
    requires 0 < k < |buf| && buf[k].msg.messageID == msgID && buf[0].msg.messageID != msgID
    requires forall j :: 0 <= j < |buf| - 1 && j != k - 1 ==> buf[1..][j].msg.messageID != msgID
    ensures WithoutID(buf, msgID) == buf[..k] + buf[k + 1..]
    decreases |buf|, 0
  {
    var tail := buf[1..];
    WithoutOnly(tail, msgID, k - 1);
    assert buf[..k] == [buf[0]] + tail[..k - 1];
    assert buf[k + 1..] == tail[k..];
  }

  /** The ID-free positions of a buffer, seen from its tail. */
  lemma OthersInTail(buf: seq<Echo>, msgID: int, k: nat)
    requires k < |buf|
    requires forall j :: 0 <= j < |buf| && j != k ==> buf[j].msg.messageID != msgID
    ensures forall j :: 0 <= j < |buf| - 1 && j != k - 1 ==> buf[1..][j].msg.messageID != msgID
  {
    forall j | 0 <= j < |buf| - 1 && j != k - 1 ensures buf[1..][j].msg.messageID != msgID {
      assert buf[1..][j] == buf[j + 1];
    }
  }

  /** Nothing to remove leaves the buffer as it is. */
  lemma {:induction false} WithoutAbsent(buf: seq<Echo>, msgID: int)
    requires forall j :: 0 <= j < |buf| ==> buf[j].msg.messageID != msgID
    ensures WithoutID(buf, msgID) == buf
  {
    if |buf| > 0 {
      forall j | 0 <= j < |buf[1..]| ensures buf[1..][j].msg.messageID != msgID {
        assert buf[1..][j] == buf[j + 1];
      }
      WithoutAbsent(buf[1..], msgID);
    }
  }

  /** Removing an ID twice is removing it once. */
  lemma WithoutTwice(buf: seq<Echo>, msgID: int)
    ensures WithoutID(WithoutID(buf, msgID), msgID) == WithoutID(buf, msgID)
  {
    var r := WithoutID(buf, msgID);
    forall j | 0 <= j < |r| ensures r[j].msg.messageID != msgID {
      assert r[j] in r;
    }
    WithoutAbsent(r, msgID);
  }

  /**
   * The takeback loop on one channel's buffer as Go runs it: `range` walks
   * the original slice, while each `append(s[:i], s[i+1:]...)` shifts the
   * shared backing array under it and shortens the current slice. A match
   * found past the end of the shortened slice is an out-of-range panic.
   * With unique message IDs it removes exactly the messages with the ID.
   */
  method SpliceOut(buf: seq<Echo>, msgID: int) returns (r: seq<Echo>, panicked: bool)
    ensures UniqueIDs(buf) ==> !panicked && r == WithoutID(buf, msgID)
  {
    var backing := buf;  // the backing array the range reads through
    var n := |buf|;      // the length of the current slice
    ghost var unique := UniqueIDs(buf);
    ghost var k := -1;   // where the one match was removed, if it was
    for i := 0 to |buf|
      invariant |backing| == |buf| && 0 <= n <= |buf|
      invariant unique && k < 0 ==>
                  n == |buf| && backing == buf && forall j :: 0 <= j < i ==> buf[j].msg.messageID != msgID
      invariant unique && k >= 0 ==>
                  k < i && n == |buf| - 1 && buf[k].msg.messageID == msgID && backing == Shifted(buf, k)
    {
      if backing[i].msg.messageID == msgID {
        if i + 1 > n {
          return backing[..n], true;
        }
        if unique && k >= 0 {
          assert false;
        }
        k := i;
        backing := backing[..i] + backing[i + 1..n] + backing[n - 1..];
        n := n - 1;
        if unique {
          ShiftedFirst(buf, i);
        }
      }
    }
    r, panicked := backing[..n], false;
    if unique {
      if k < 0 {
        WithoutAbsent(buf, msgID);
      } else {
        ShiftedPrefix(buf, k);
        WithoutOnly(buf, msgID, k);
      }
    }
  }

  /** The backing array after one splice at `k`: the rest shifted left, the last element repeated. */
  function Shifted(buf: seq<Echo>, k: nat): seq<Echo>
    requires k < |buf|
  {
    buf[..k] + buf[k + 1..] + [buf[|buf| - 1]]
  }

  lemma ShiftedFirst(buf: seq<Echo>, i: nat)
    requires i < |buf|
    ensures buf[..i] + buf[i + 1..|buf|] + buf[|buf| - 1..] == Shifted(buf, i)
  {
    assert buf[|buf| - 1..] == [buf[|buf| - 1]];
  }

  lemma ShiftedAt(buf: seq<Echo>, k: nat, i: nat)
    requires k <= i < |buf| - 1
    ensures Shifted(buf, k)[i] == buf[i + 1]
  {
  }

  lemma ShiftedPrefix(buf: seq<Echo>, k: nat)
    requires k < |buf|
    ensures Shifted(buf, k)[..|buf| - 1] == buf[..k] + buf[k + 1..]
  {
  }

  /** The messages of a buffer whose authors are not in `hidden`, in order. */
  function Unhidden(buf: seq<Echo>, hidden: set<string>): (r: seq<Echo>)
    ensures forall x :: x in r <==> x in buf && x.msg.username !in hidden
  {
    if |buf| == 0 then []
    else
      var rest := Unhidden(buf[..|buf| - 1], hidden);
      var last := buf[|buf| - 1];
      assert buf == buf[..|buf| - 1] + [last];
      if last.msg.username in hidden then rest else rest + [last]
  }

  /** The echoes of the channels in visiting order, each channel's buffer in order. */
  function Gathered(echoes: map<string, seq<Echo>>, order: seq<string>, hidden: set<string>): seq<Echo> {
    if |order| == 0 then []
    else
      var c := order[|order| - 1];
      Gathered(echoes, order[..|order| - 1], hidden) + (if c in echoes then Unhidden(echoes[c], hidden) else [])
  }

  /**
   * The echoes a user receives are exactly the buffered messages of the
   * visited channels whose author the user has neither blocked nor muted.
   */
  lemma {:induction false} GatheredMembers(echoes: map<string, seq<Echo>>, order: seq<string>, hidden: set<string>, x: Echo)
    ensures x in Gathered(echoes, order, hidden) <==>
              x.msg.username !in hidden && exists i :: 0 <= i < |order| && order[i] in echoes && x in echoes[order[i]]
  {
    if |order| > 0 {
      var prefix := order[..|order| - 1];
      GatheredMembers(echoes, prefix, hidden, x);
      if x.msg.username !in hidden && exists i :: 0 <= i < |order| && order[i] in echoes && x in echoes[order[i]] {
        var i :| 0 <= i < |order| && order[i] in echoes && x in echoes[order[i]];
        if i < |order| - 1 {
          assert prefix[i] == order[i];
        }
      }
      if x in Gathered(echoes, prefix, hidden) {
        var i :| 0 <= i < |prefix| && prefix[i] in echoes && x in echoes[prefix[i]];
        assert order[i] == prefix[i];
      }
    }
  }

  /** Pushing messages one by one into a buffer of `cap`. */
  function Pushed(xs: seq<Echo>, cap: nat): seq<Echo> {
    if |xs| == 0 then [] else LastN(Pushed(xs[..|xs| - 1], cap) + [xs[|xs| - 1]], cap)
  }

  /** A buffer fed by pushes holds the newest `cap` of the messages pushed, in order. */
  lemma {:induction false} PushedIsNewest(xs: seq<Echo>, cap: nat)
    ensures Pushed(xs, cap) == LastN(xs, cap)
  {
    if |xs| > 0 {
      var prefix := xs[..|xs| - 1];
      PushedIsNewest(prefix, cap);
      TrimIsCompositional(prefix, xs[|xs| - 1], cap);
      assert prefix + [xs[|xs| - 1]] == xs;
    }
  }

  /** Every buffer belongs to a configured channel and is within its window. */
  predicate BoundedBuffers(echoes: map<string, seq<Echo>>, cfg: Config) {
    forall c :: c in echoes ==> GetChannel(cfg, c).Some? && |echoes[c]| <= GetChannel(cfg, c).value.echoMessagesOnJoin
  }

  /** Storing a buffer within a configured channel's window keeps every buffer bounded. */
  lemma BoundedAfterPush(echoes: map<string, seq<Echo>>, cfg: Config, channel: string, buf: seq<Echo>)
    requires GetChannel(cfg, channel).Some? && |buf| <= GetChannel(cfg, channel).value.echoMessagesOnJoin
    ensures BoundedBuffers(echoes, cfg) ==> BoundedBuffers(echoes[channel := buf], cfg)
  {
  }

  /** The echoMessages map. */
  class EchoBuffers {
    var echoes: map<string, seq<Echo>>

    function Buffer(channel: string): seq<Echo>
      reads this
    {
      if channel in echoes then echoes[channel] else []
    }

    /** Every buffer belongs to a configured channel and is within its window. */
    predicate Bounded(cfg: Config)
      reads this
    {
      BoundedBuffers(echoes, cfg)
    }

    constructor()
      ensures echoes == map[]
    {
      echoes := map[];
    }

    /**
     * EchoPushPublicMessage: nothing for a channel that is not configured;
     * otherwise the timestamped message is appended and the buffer trimmed
     * to the channel's window.
     */
    method PushPublicMessage(cfg: Config, channel: string, msg: Message, now: string)
      modifies this
      ensures GetChannel(cfg, channel).None? ==> echoes == old(echoes)
      ensures GetChannel(cfg, channel).Some? ==>
                echoes == old(echoes)[channel := LastN(old(Buffer(channel)) + [Echo(msg, now)], GetChannel(cfg, channel).value.echoMessagesOnJoin)]
      ensures old(Bounded(cfg)) ==> Bounded(cfg)
    {
      var ch := GetChannel(cfg, channel);
      if ch.None? {
        return;
      }
      var buf := Buffer(channel) + [Echo(msg, now)];
      var ln := |buf|;
      if ln > ch.value.echoMessagesOnJoin {
        buf := buf[ln - ch.value.echoMessagesOnJoin..];
      }
      assert buf == LastN(old(Buffer(channel)) + [Echo(msg, now)], ch.value.echoMessagesOnJoin);
      BoundedAfterPush(echoes, cfg, channel, buf);
      echoes := echoes[channel := buf];
    }

    /**
     * EchoTakebackMessage: the takeback loop run on the buffer of every
     * configured public channel, in configuration order. With unique message
     * IDs in every buffer it never panics (see TakebackRemovesEverywhere for
     * the effect).
     */
    method TakebackMessage(cfg: Config, msgID: int) returns (panicked: bool)
      modifies this
      ensures AllUnique(old(echoes)) ==> !panicked && echoes == TakenBack(old(echoes), cfg.publicChannels, msgID)
    {
      ghost var before := echoes;
      var chans := cfg.publicChannels;
      for i := 0 to |chans|
        invariant AllUnique(before) ==> echoes == TakenBack(before, chans[..i], msgID) && AllUnique(echoes)
      {
        assert chans[..i + 1][..i] == chans[..i];
        var id := chans[i].id;
        if id in echoes {
          var r, p := SpliceOut(echoes[id], msgID);
          if p {
            return true;
          }
          echoes := echoes[id := r];
        }
        if AllUnique(before) {
          TakenBackUnique(before, chans[..i + 1], msgID);
        }
      }
      assert chans[..|chans|] == chans;
      return false;
    }

    /**
     * SendEchoedMessages: the buffered messages of every channel, in the
     * order the channels are visited, leaving out authors the user has
     * blocked or muted. `order` is the order in which Go's range over the
     * buffer map visits the channels: each buffered channel once.
     */
    method EchoesFor(sub: Subscriber, order: seq<string>) returns (out: seq<Echo>)
      requires (set c | c in order) == echoes.Keys && |order| == |echoes.Keys|
      ensures out == Gathered(echoes, order, sub.blocked + sub.muted)
    {
      var hidden := sub.blocked + sub.muted;
      out := [];
      for i := 0 to |order|
        invariant out == Gathered(echoes, order[..i], hidden)
      {
        assert order[..i + 1][..i] == order[..i];
        if order[i] in echoes {
          var msgs := echoes[order[i]];
          ghost var start := out;
          for j := 0 to |msgs|
            invariant out == start + Unhidden(msgs[..j], hidden)
          {
            assert msgs[..j + 1][..j] == msgs[..j];
            if msgs[j].msg.username !in hidden {
              out := out + [msgs[j]];
            }
          }
          assert msgs[..|msgs|] == msgs;
        }
      }
      assert order[..|order|] == order;
    }
  }

  /** Removing an ID keeps the IDs unique. */
  lemma UniqueKept(buf: seq<Echo>, msgID: int)
    requires UniqueIDs(buf)
    ensures UniqueIDs(WithoutID(buf, msgID))
  {
    if |buf| > 0 {
      UniqueKept(buf[1..], msgID);
      var rest := WithoutID(buf[1..], msgID);
      forall j | 0 <= j < |rest| ensures rest[j].msg.messageID != buf[0].msg.messageID {
        assert rest[j] in buf[1..];
      }
    }
  }

  predicate AllUnique(echoes: map<string, seq<Echo>>) {
    forall c :: c in echoes ==> UniqueIDs(echoes[c])
  }

  /** The buffers after the takeback loop has visited `chans`. */
  function TakenBack(echoes: map<string, seq<Echo>>, chans: seq<Channel>, msgID: int): map<string, seq<Echo>> {
    if |chans| == 0 then echoes
    else
      var m := TakenBack(echoes, chans[..|chans| - 1], msgID);
      var id := chans[|chans| - 1].id;
      if id in m then m[id := WithoutID(m[id], msgID)] else m
  }

  lemma {:induction false} TakenBackUnique(echoes: map<string, seq<Echo>>, chans: seq<Channel>, msgID: int)
    requires AllUnique(echoes)
    ensures AllUnique(TakenBack(echoes, chans, msgID))
  {
    if |chans| > 0 {
      TakenBackUnique(echoes, chans[..|chans| - 1], msgID);
      var m := TakenBack(echoes, chans[..|chans| - 1], msgID);
      var id := chans[|chans| - 1].id;
      if id in m {
        UniqueKept(m[id], msgID);
      }
    }
  }

  lemma TakenBackEffect(echoes: map<string, seq<Echo>>, chans: seq<Channel>, msgID: int)
    ensures TakenBack(echoes, chans, msgID).Keys == echoes.Keys
    ensures forall c :: c in echoes ==>
              TakenBack(echoes, chans, msgID)[c] ==
                if exists j :: 0 <= j < |chans| && chans[j].id == c then WithoutID(echoes[c], msgID) else echoes[c]
  {
    forall c ensures c in TakenBack(echoes, chans, msgID) <==> c in echoes {
      TakenBackAt(echoes, chans, msgID, c);
    }
    forall c | c in echoes
      ensures TakenBack(echoes, chans, msgID)[c] ==
                if exists j :: 0 <= j < |chans| && chans[j].id == c then WithoutID(echoes[c], msgID) else echoes[c]
    {
      TakenBackAt(echoes, chans, msgID, c);
    }
  }

  /** Some channel in `chans` has the ID `c`. */
  predicate Listed(chans: seq<Channel>, c: string) {
    exists j :: 0 <= j < |chans| && chans[j].id == c
  }

  lemma ListedSnoc(chans: seq<Channel>, c: string)
    requires |chans| > 0
    ensures Listed(chans, c) <==> Listed(chans[..|chans| - 1], c) || chans[|chans| - 1].id == c
  {
    var prefix := chans[..|chans| - 1];
    if Listed(chans, c) && chans[|chans| - 1].id != c {
      var j :| 0 <= j < |chans| && chans[j].id == c;
      assert prefix[j] == chans[j];
    }
    if Listed(prefix, c) {
      var j :| 0 <= j < |prefix| && prefix[j].id == c;
      assert chans[j] == prefix[j];
    }
  }

  /** The takeback loop on one buffer: removed once if its channel was visited, untouched otherwise. */
  lemma {:induction false} TakenBackAt(echoes: map<string, seq<Echo>>, chans: seq<Channel>, msgID: int, c: string)
    ensures c in TakenBack(echoes, chans, msgID) <==> c in echoes
    ensures c in echoes ==>
              TakenBack(echoes, chans, msgID)[c] == if Listed(chans, c) then WithoutID(echoes[c], msgID) else echoes[c]
  {
    if |chans| > 0 {
      var prefix := chans[..|chans| - 1];
      TakenBackAt(echoes, prefix, msgID, c);
      ListedSnoc(chans, c);
      if c in echoes && c == chans[|chans| - 1].id && Listed(prefix, c) {
        WithoutTwice(echoes[c], msgID);
      }
    }
  }

  /**
   * With unique message IDs, a takeback removes the message from the buffer
   * of every configured channel, keeps the rest of each in order, and leaves
   * other buffers alone.
   */
  lemma TakebackRemovesEverywhere(echoes: map<string, seq<Echo>>, cfg: Config, msgID: int)
    ensures TakenBack(echoes, cfg.publicChannels, msgID).Keys == echoes.Keys
    ensures forall c :: c in echoes ==>
              TakenBack(echoes, cfg.publicChannels, msgID)[c] ==
                if GetChannel(cfg, c).Some? then WithoutID(echoes[c], msgID) else echoes[c]
  {
    TakenBackEffect(echoes, cfg.publicChannels, msgID);
  }
}
