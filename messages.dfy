/**
 * The chat protocol's video-status bit flags and the server's monotonic
 * message ID counter (pkg/messages/messages.go).
 */
module Messages {
  /**
   * A camera status word. The source's type is Go's `int`; the model keeps
   * its low eight bits. Every flag lives in bits 0 to 6 and every operation
   * on the word (`|`, `&`, `^`, `&^`) acts bit by bit, so the higher bits
   * never change the outcome of a flag test.
   */
  type VideoStatus = bv8

  const VideoFlagActive: VideoStatus := 1          // camera enabled and broadcasting
  const VideoFlagNSFW: VideoStatus := 2            // camera is marked explicit
  const VideoFlagMuted: VideoStatus := 4           // microphone muted
  const VideoFlagNonExplicit: VideoStatus := 8     // viewer prefers not to see explicit cameras
  const VideoFlagMutualRequired: VideoStatus := 16 // viewers must share their camera too
  const VideoFlagMutualOpen: VideoStatus := 32     // auto-open the cameras of my viewers
  const VideoFlagOnlyVIP: VideoStatus := 64        // shows as active to VIP members only

  /** The seven flags by name, in declaration (`iota`) order. */
  datatype Flag = Active | NSFW | Muted | NonExplicit | MutualRequired | MutualOpen | OnlyVIP

  /** Position of a flag's bit: its `iota` index. */
  function Position(f: Flag): nat {
    match f
    case Active => 0
    case NSFW => 1
    case Muted => 2
    case NonExplicit => 3
    case MutualRequired => 4
    case MutualOpen => 5
    case OnlyVIP => 6
  }

  /** The constant that names a flag's bit. */
  function Bit(f: Flag): VideoStatus {
    match f
    case Active => VideoFlagActive
    case NSFW => VideoFlagNSFW
    case Muted => VideoFlagMuted
    case NonExplicit => VideoFlagNonExplicit
    case MutualRequired => VideoFlagMutualRequired
    case MutualOpen => VideoFlagMutualOpen
    case OnlyVIP => VideoFlagOnlyVIP
  }

  /** The flags in declaration order. */
  const AllFlags: seq<Flag> := [Active, NSFW, Muted, NonExplicit, MutualRequired, MutualOpen, OnlyVIP]

  /** The bits of all seven flags: the low seven bits. */
  const AllBits: VideoStatus := 127

  /** The constants are `1 << iota`: distinct single bits at positions 0 through 6, in order. */
  lemma FlagsAreIotaBits(f: Flag, g: Flag)
    ensures Bit(f) == 1 << Position(f) && Position(f) < 7
    ensures f != g ==> Bit(f) & Bit(g) == 0 && Position(f) != Position(g)
    ensures Bit(f) & AllBits == Bit(f)
  {
  }

  lemma BitsDisjoint(f: Flag, g: Flag)
    ensures Bit(f) != 0
    ensures f != g ==> Bit(f) & Bit(g) == 0 && Bit(f) != Bit(g)
  {
  }

  /** The test suite's reading of a status word: flag `f` is set iff `v & f == f`. */
  predicate Has(v: VideoStatus, f: Flag) {
    v & Bit(f) == Bit(f)
  }

  /** The flags a status word carries. */
  function Decode(v: VideoStatus): set<Flag> {
    set f: Flag | Has(v, f)
  }

  /**
   * The status word with exactly the named flags on: the OR of their bits,
   * one flag at a time in the order the client's myVideoFlag tests them.
   */
  function FlagWord(active: bool, muted: bool, nsfw: bool, mutualRequired: bool,
                    mutualOpen: bool, nonExplicit: bool, onlyVIP: bool): VideoStatus {
    (if active then VideoFlagActive else 0)
    | (if muted then VideoFlagMuted else 0)
    | (if nsfw then VideoFlagNSFW else 0)
    | (if mutualRequired then VideoFlagMutualRequired else 0)
    | (if mutualOpen then VideoFlagMutualOpen else 0)
    | (if nonExplicit then VideoFlagNonExplicit else 0)
    | (if onlyVIP then VideoFlagOnlyVIP else 0)
  }

  /** The status word carrying exactly the listed flags. */
  function Encode(fs: seq<Flag>): VideoStatus {
    FlagWord(Active in fs, Muted in fs, NSFW in fs, MutualRequired in fs,
             MutualOpen in fs, NonExplicit in fs, OnlyVIP in fs)
  }

  /** Encoding sets exactly the listed flags' bits. */
  lemma EncodeHas(fs: seq<Flag>, g: Flag)
    ensures Has(Encode(fs), g) <==> g in fs
  {
    match g
    case Active =>
    case NSFW =>
    case Muted =>
    case NonExplicit =>
    case MutualRequired =>
    case MutualOpen =>
    case OnlyVIP =>
  }

  /** Encoding sets nothing above bit 6. */
  lemma EncodeWithin(fs: seq<Flag>)
    ensures Encode(fs) & AllBits == Encode(fs)
  {
    FlagWordWithin(Active in fs, Muted in fs, NSFW in fs, MutualRequired in fs,
                   MutualOpen in fs, NonExplicit in fs, OnlyVIP in fs);
  }

  lemma FlagWordWithin(a: bool, b: bool, c: bool, d: bool, e: bool, f: bool, g: bool)
    ensures FlagWord(a, b, c, d, e, f, g) & AllBits == FlagWord(a, b, c, d, e, f, g)
  {
  }

  /** Round trip: decoding an encoded flag list gives back the flags listed. */
  lemma DecodeEncode(fs: seq<Flag>)
    ensures Decode(Encode(fs)) == set f | f in fs
  {
    forall g: Flag ensures Has(Encode(fs), g) <==> g in fs {
      EncodeHas(fs, g);
    }
  }

  /** The flags of a status word, listed in bit order. */
  function Listed(v: VideoStatus): seq<Flag> {
    ListedFrom(v, AllFlags)
  }

  function ListedFrom(v: VideoStatus, fs: seq<Flag>): (r: seq<Flag>)
    ensures forall f :: f in r <==> f in fs && Has(v, f)
  {
    if |fs| == 0 then []
    else if Has(v, fs[0]) then [fs[0]] + ListedFrom(v, fs[1..])
    else ListedFrom(v, fs[1..])
  }

  /** Round trip the other way: re-encoding the flags of `v` keeps exactly its low seven bits. */
  lemma EncodeDecode(v: VideoStatus)
    ensures Encode(Listed(v)) == v & AllBits
  {
    var fs := Listed(v);
    assert (Active in fs <==> Has(v, Active)) && (Muted in fs <==> Has(v, Muted)) && (NSFW in fs <==> Has(v, NSFW));
    assert (MutualRequired in fs <==> Has(v, MutualRequired)) && (MutualOpen in fs <==> Has(v, MutualOpen));
    assert (NonExplicit in fs <==> Has(v, NonExplicit)) && (OnlyVIP in fs <==> Has(v, OnlyVIP));
    LowSevenBits(v);
  }

  /** The low seven bits of `v` are the word of the flags it has. */
  lemma LowSevenBits(v: VideoStatus)
    ensures FlagWord(Has(v, Active), Has(v, Muted), Has(v, NSFW), Has(v, MutualRequired),
                     Has(v, MutualOpen), Has(v, NonExplicit), Has(v, OnlyVIP)) == v & AllBits
  {
  }

  /** The test table's example: 49 is Active, MutualRequired and MutualOpen, and nothing else. */
  lemma FortyNineDecodes()
    ensures Decode(49) == {Active, MutualRequired, MutualOpen}
  {
    assert forall f: Flag :: Has(49, f) <==> f in {Active, MutualRequired, MutualOpen};
  }

  /** OR-ing a flag's bit sets that flag and leaves every other flag as it was. */
  lemma SetFlag(v: VideoStatus, g: Flag, f: Flag)
    ensures Has(v | Bit(g), f) <==> f == g || Has(v, f)
  {
    match g
    case Active =>
    case NSFW =>
    case Muted =>
    case NonExplicit =>
    case MutualRequired =>
    case MutualOpen =>
    case OnlyVIP =>
  }

  /**
   * The mutation sequence of the test suite: Go gives `|` and `^` the same
   * precedence, so `v | Muted ^ MutualRequired` is `(v | Muted) ^ MutualRequired`.
   */
  lemma MutationSequence()
    ensures var v1 := 1;
            var v2 := v1 | VideoFlagMutualOpen;
            var v3 := v2 | VideoFlagMutualRequired;
            var v4 := (v3 | VideoFlagMuted) ^ VideoFlagMutualRequired;
            var v5 := v4 ^ VideoFlagMutualOpen;
            var v6 := v5 | VideoFlagOnlyVIP | VideoFlagNSFW;
            Decode(v1) == {Active}
            && Decode(v2) == {Active, MutualOpen}
            && Decode(v3) == {Active, MutualOpen, MutualRequired}
            && Decode(v4) == {Active, MutualOpen, Muted}
            && Decode(v5) == {Active, Muted}
            && Decode(v6) == {Active, Muted, OnlyVIP, NSFW}
  {
    assert forall f: Flag :: Has(1, f) <==> f == Active;
    assert forall f: Flag :: Has(33, f) <==> f in {Active, MutualOpen};
    assert forall f: Flag :: Has(49, f) <==> f in {Active, MutualOpen, MutualRequired};
    assert forall f: Flag :: Has(37, f) <==> f in {Active, MutualOpen, Muted};
    assert forall f: Flag :: Has(5, f) <==> f in {Active, Muted};
    assert forall f: Flag :: Has(71, f) <==> f in {Active, Muted, OnlyVIP, NSFW};
  }

  /** One row of the Who's Online list as the server sends it. */
  datatype WhoList = WhoList(username: string, nickname: string, status: string, video: VideoStatus, dnd: bool, operator: bool, vip: bool)

  /**
   * A protocol message, with the fields the modelled logic reads or writes.
   * Unset fields are empty, as Go's zero values are.
   */
  datatype Message = Message(
    action: string,
    channel: string,
    username: string,
    message: string,
    videoStatus: VideoStatus,
    chatStatus: string,
    dnd: bool,
    messageID: int,
    openSecret: string,
    usernames: seq<string>,
    whoList: seq<WhoList>)

  /** A message carrying only an action. */
  function Action(action: string): (m: Message)
    ensures m.action == action && m.username == "" && m.message == "" && m.whoList == []
  {
    Message(action, "", "", "", 0, "", false, 0, "", [], [])
  }

  const ActionMessage := "message"
  const ActionMe := "me"
  const ActionOpen := "open"
  const ActionRing := "ring"
  const ActionTakeback := "takeback"
  const ActionReact := "react"
  const ActionWhoList := "who"
  const ActionPresence := "presence"
  const ActionCut := "cut"
  const ActionError := "error"
  const ActionKick := "disconnect"
  const ActionBlock := "block"

  const PresenceJoined := "has joined the room!"
  const PresenceExited := "has exited the room!"
  const PresenceKicked := "has been kicked from the room!"

  /**
   * The server's message ID counter. It starts at the Unix time the process
   * started and is only ever incremented.
   */
  class MessageIDCounter {
    var messageID: int

    constructor (startUnixTime: int)
      ensures messageID == startUnixTime
    {
      messageID := startUnixTime;
    }

    /** NextMessageID: increment, then return the new value. */
    method NextMessageID() returns (id: int)
      modifies this
      ensures id == old(messageID) + 1 && messageID == id
    {
      messageID := messageID + 1;
      id := messageID;
    }
  }

  /** Two successive IDs from the same counter are strictly increasing. */
  method TwoIDsIncrease(c: MessageIDCounter) returns (first: int, second: int)
    modifies c
    ensures old(c.messageID) < first < second == c.messageID
  {
    first := c.NextMessageID();
    second := c.NextMessageID();
  }
}
