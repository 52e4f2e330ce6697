/**
 * The browser client's per-peer webcam bookkeeping and viewing policy
 * (src/lib/WebRTC.js).
 *
 * Peer connections, media streams and timers are opaque numbers. What the
 * client does with them is recorded as effects: the messages it sends to the
 * chat server (`sent`), the peer connections it closes (`closed`), the
 * signalling payloads it hands to a connection (`signals`) and how it sets up
 * the media of a new connection (`attached`, `recvOnly`).
 */
module WebRtcClient {
  import opened Common
  import opened Messages

  /** An RTCPeerConnection. */
  type Handle = nat
  /** A setTimeout / setInterval id. */
  type Timer = nat
  /** A MediaStream id. */
  type StreamId = nat

  /** `WebRTC.pc[username]`: the two one-way connections with a peer and the one being negotiated. */
  datatype PeerRecord = PeerRecord(offerer: Option<Handle>, answerer: Option<Handle>, connecting: Option<Handle>)

  const EmptyRecord := PeerRecord(None, None, None)

  /** The record still holds a connection that the sweep would close. */
  predicate HasHandle(r: PeerRecord) {
    r.offerer.Some? || r.answerer.Some?
  }

  /** The connections a record holds. */
  function Handles(r: PeerRecord): set<Handle> {
    (if r.offerer.Some? then {r.offerer.value} else {}) + (if r.answerer.Some? then {r.answerer.value} else {})
  }

  /**
   * The shape every record has: startWebRTC creates it with a role and points
   * `connecting` at that role's connection, and records are only ever deleted whole.
   */
  predicate WellFormedRecord(r: PeerRecord) {
    r.connecting.Some? && (r.connecting == r.offerer || r.connecting == r.answerer)
  }

  /** A row of the Who List as the client sees it. `invited` is the Invited video flag. */
  datatype WhoRow = WhoRow(username: string, video: VideoStatus, vip: bool, op: bool, invited: bool)

  /** The local webcam's settings (`webcam.*`). */
  datatype Webcam = Webcam(
    active: bool, muted: bool, nsfw: bool, mutual: bool, mutualOpen: bool,
    nonExplicit: bool, vipOnly: bool, rememberExpresslyClosed: bool, autoMuteWebcams: bool)

  /** Facts about the local user the component reads from elsewhere in the app. */
  datatype Viewer = Viewer(
    username: string, status: string, isOp: bool, isVIP: bool,
    noVideoRule: bool, permitNSFW: bool, skipNsfwModal: bool)

  /** Messages the client sends to the chat server. */
  datatype Outgoing = Open(username: string) | Watch(username: string) | Unwatch(username: string)
                    | Boot(username: string) | Unboot(username: string)

  /** Signalling payloads handed to a peer connection. */
  datatype Signal = IceCandidate(pc: Handle, payload: string) | RemoteDescription(pc: Handle, payload: string)

  /** Which side of `closeVideo` runs: the viewer side, the broadcaster side, or the peer logged off. */
  datatype CloseRole = Offerer | Answerer | LoggedOff

  predicate On(v: VideoStatus, f: Flag) {
    Has(v, f)
  }

  /* ---------- Pure policy ---------- */

  /** The camera is active and the broadcaster expressly invited us. */
  predicate InvitedActive(user: WhoRow) {
    On(user.video, Active) && user.invited
  }

  /** An explicit camera and a non-explicit one would meet (either direction), with our camera on. */
  predicate ExplicitMismatch(cam: Webcam, video: VideoStatus) {
    cam.active && On(video, Active)
    && ((cam.nsfw && On(video, NonExplicit)) || (cam.nonExplicit && On(video, NSFW)))
  }

  /** A mutual-required camera the local user may not open: ours is off, or ours is VIP-only and they cannot see it. */
  predicate MutualRefused(v: Viewer, cam: Webcam, user: WhoRow, listedVip: Option<bool>) {
    On(user.video, Active) && On(user.video, MutualRequired)
    && ((cam.active && v.isVIP && cam.vipOnly && listedVip == Some(false)) || !cam.active)
  }

  /**
   * isVideoNotAllowed: whether the button that opens a user's camera is crossed out.
   * `listedVip` is the target's `vip` in the Who List (None when not listed);
   * `mutedUser` and `bootedUser` say whether we muted or booted them.
   */
  function IsVideoNotAllowed(v: Viewer, cam: Webcam, user: WhoRow, listedVip: Option<bool>,
                             mutedUser: bool, bootedUser: bool): (r: bool)
    ensures v.noVideoRule ==> r
    ensures !v.noVideoRule && InvitedActive(user) ==> !r
  {
    if v.noVideoRule then true
    else if InvitedActive(user) then false
    else if On(user.video, Active) && On(user.video, MutualRequired)
            && cam.active && v.isVIP && cam.vipOnly && listedVip.Some? && !listedVip.value then true
    else if On(user.video, Active) && On(user.video, MutualRequired) && !cam.active then true
    else if mutedUser || bootedUser then true
    else if cam.active && cam.nsfw && On(user.video, Active) && On(user.video, NonExplicit) then true
    else if cam.active && cam.nonExplicit && On(user.video, Active) && On(user.video, NSFW) then true
    else false
  }

  /**
   * The checks of isVideoNotAllowed, as one disjunction: the NoVideo rule refuses;
   * an expressly invited active camera is always allowed past every other check;
   * otherwise any refusal reason refuses.
   */
  lemma IsVideoNotAllowedReasons(v: Viewer, cam: Webcam, user: WhoRow, listedVip: Option<bool>,
                                 mutedUser: bool, bootedUser: bool)
    ensures IsVideoNotAllowed(v, cam, user, listedVip, mutedUser, bootedUser)
        <==> v.noVideoRule
             || (!InvitedActive(user)
                 && (MutualRefused(v, cam, user, listedVip) || mutedUser || bootedUser
                     || ExplicitMismatch(cam, user.video)))
  {
  }

  /** Whether an offerer attaches its own camera to the offer (startWebRTC). */
  function ShouldOfferVideo(cam: Webcam, theirVideo: VideoStatus, bootedThem: bool, mutedThem: bool): (r: bool)
    ensures r ==> cam.active && On(theirVideo, MutualOpen)
    ensures r ==> !(cam.nsfw && On(theirVideo, NonExplicit))
  {
    On(theirVideo, MutualOpen) && cam.active && !bootedThem && !mutedThem
    && (!cam.nsfw || !On(theirVideo, NonExplicit))
  }

  /** We only push our camera at someone we neither booted nor muted, and never red at a non-explicit viewer. */
  lemma ShouldOfferVideoRespectsViewer(cam: Webcam, theirVideo: VideoStatus, bootedThem: bool, mutedThem: bool)
    requires bootedThem || mutedThem || (cam.nsfw && On(theirVideo, NonExplicit)) || !cam.active
    ensures !ShouldOfferVideo(cam, theirVideo, bootedThem, mutedThem)
  {
  }

  /** The ontrack gate: whether an arriving remote stream is shown. */
  function AcceptsTrack(isOfferer: bool, cam: Webcam, expresslyClosedThem: bool, bootedAdmin: bool): (r: bool)
    ensures r ==> !bootedAdmin
    ensures r && !isOfferer ==> cam.mutualOpen && !(expresslyClosedThem && cam.rememberExpresslyClosed)
  {
    if !isOfferer && !cam.mutualOpen then false
    else if expresslyClosedThem && cam.rememberExpresslyClosed && !isOfferer then false
    else if bootedAdmin then false
    else true
  }

  /** A stream we asked for (offerer side) is refused only for a booted admin. */
  lemma OffererTrackAccepted(cam: Webcam, expresslyClosedThem: bool, bootedAdmin: bool)
    ensures AcceptsTrack(true, cam, expresslyClosedThem, bootedAdmin) <==> !bootedAdmin
  {
  }

  /** myVideoFlag: the local camera's status word. */
  function MyVideoFlag(cam: Webcam, permitNSFW: bool, isVIP: bool): (status: VideoStatus)
    ensures forall f :: Has(status, f) <==> f in ExpectedFlags(cam, permitNSFW, isVIP)
  {
    var fs := ExpectedFlags(cam, permitNSFW, isVIP);
    if !cam.active then
      assert forall f :: !Has(0, f) by { assert forall f :: Bit(f) != 0; }
      0
    else
      ActiveFlagWordHas(cam, permitNSFW, isVIP);
      FlagWord(true, cam.muted, cam.nsfw && permitNSFW, cam.mutual, cam.mutualOpen,
               cam.nonExplicit, cam.vipOnly && isVIP)
  }

  /** An active camera's word holds exactly the expected flags. */
  lemma ActiveFlagWordHas(cam: Webcam, permitNSFW: bool, isVIP: bool)
    requires cam.active
    ensures var w := FlagWord(true, cam.muted, cam.nsfw && permitNSFW, cam.mutual, cam.mutualOpen,
                              cam.nonExplicit, cam.vipOnly && isVIP);
            forall f :: Has(w, f) <==> f in ExpectedFlags(cam, permitNSFW, isVIP)
  {
    var fs := ExpectedFlags(cam, permitNSFW, isVIP);
    ExpectedFlagsListed(cam, permitNSFW, isVIP);
    forall f ensures Has(Encode(fs), f) <==> f in fs {
      EncodeHas(fs, f);
    }
  }

  /** The flags the local camera should advertise. */
  function ExpectedFlags(cam: Webcam, permitNSFW: bool, isVIP: bool): seq<Flag> {
    if !cam.active then []
    else
      [Active]
      + (if cam.muted then [Muted] else [])
      + (if cam.nsfw && permitNSFW then [NSFW] else [])
      + (if cam.mutual then [MutualRequired] else [])
      + (if cam.mutualOpen then [MutualOpen] else [])
      + (if cam.nonExplicit then [NonExplicit] else [])
      + (if cam.vipOnly && isVIP then [OnlyVIP] else [])
  }

  /** myVideoFlag is exactly the encoding of the settings that are on; zero when the camera is off. */
  lemma MyVideoFlagEncodesSettings(cam: Webcam, permitNSFW: bool, isVIP: bool)
    ensures MyVideoFlag(cam, permitNSFW, isVIP) == Encode(ExpectedFlags(cam, permitNSFW, isVIP))
    ensures !cam.active ==> MyVideoFlag(cam, permitNSFW, isVIP) == 0
  {
    if cam.active {
      ExpectedFlagsListed(cam, permitNSFW, isVIP);
    }
  }

  /** Which flags the expected list holds for an active camera. */
  lemma ExpectedFlagsListed(cam: Webcam, permitNSFW: bool, isVIP: bool)
    requires cam.active
    ensures var fs := ExpectedFlags(cam, permitNSFW, isVIP);
            Active in fs && (Muted in fs <==> cam.muted) && (NSFW in fs <==> cam.nsfw && permitNSFW)
            && (MutualRequired in fs <==> cam.mutual) && (MutualOpen in fs <==> cam.mutualOpen)
            && (NonExplicit in fs <==> cam.nonExplicit) && (OnlyVIP in fs <==> cam.vipOnly && isVIP)
  {
  }

  /* ---------- Video size (scaleVideoSize) ---------- */

  /** `webcam.videoScaleOptions`: CSS class names from default to largest. */
  const VideoScaleOptions: seq<string> := ["", "x1", "x2", "x3", "x4"]

  /** Index of the first option equal to `scale`, or the number of options when none is. */
  function ScaleIndex(options: seq<string>, scale: string): (i: nat)
    ensures i <= |options|
    ensures i < |options| ==> options[i] == scale
    ensures forall j :: 0 <= j < i ==> options[j] != scale
  {
    if |options| == 0 then 0
    else if options[0] == scale then 0
    else 1 + ScaleIndex(options[1..], scale)
  }

  /**
   * scaleVideoSize as written: past the last option it clamps to the length of
   * the current scale *string* minus one. None is the TypeError of indexing
   * past the options.
   */
  function ScaleVideoSizeAsWritten(scale: string, bigger: bool): (r: Option<string>)
    ensures r.Some? ==> r.value in VideoScaleOptions
    ensures r.None? ==> bigger && scale !in VideoScaleOptions
    ensures scale in VideoScaleOptions && !(bigger && scale == "x4") ==> r == Some(ScaleVideoSize(scale, bigger))
  {
    var cur := ScaleIndex(VideoScaleOptions, scale) as int;
    var next := if bigger then cur + 1 else cur - 1;
    var clamped := if next < 0 then 0
                   else if next >= |VideoScaleOptions| then |scale| - 1
                   else next;
    if 0 <= clamped < |VideoScaleOptions| then Some(VideoScaleOptions[clamped]) else None
  }

  /** Growing the largest size jumps back to the smallest zoom, "x1". */
  lemma ScaleVideoSizeWrapsAtLargest()
    ensures ScaleVideoSizeAsWritten("x4", true) == Some("x1")
  {
    assert ScaleIndex(VideoScaleOptions, "x4") == 4;
  }

  /** scaleVideoSize as intended: one step up or down, clamped to the first and last options. */
  function ScaleVideoSize(scale: string, bigger: bool): (r: string)
    ensures r in VideoScaleOptions
  {
    var cur := ScaleIndex(VideoScaleOptions, scale) as int;
    var next := if bigger then cur + 1 else cur - 1;
    var clamped := if next < 0 then 0
                   else if next >= |VideoScaleOptions| then |VideoScaleOptions| - 1
                   else next;
    VideoScaleOptions[clamped]
  }

  /**
   * The intended scaling is a clamped step: the result is always an option;
   * from a known option it moves exactly one place unless already at that end;
   * growing never makes the video smaller and shrinking never makes it larger.
   */
  lemma ScaleVideoSizeSteps(scale: string, bigger: bool)
    ensures ScaleVideoSize(scale, bigger) in VideoScaleOptions
    ensures var i := ScaleIndex(VideoScaleOptions, scale);
            var j := ScaleIndex(VideoScaleOptions, ScaleVideoSize(scale, bigger));
            i < |VideoScaleOptions| ==>
              (bigger ==> j == if i + 1 < |VideoScaleOptions| then i + 1 else i)
              && (!bigger ==> j == if i > 0 then i - 1 else 0)
  {
    var i := ScaleIndex(VideoScaleOptions, scale);
    var r := ScaleVideoSize(scale, bigger);
    var k :| 0 <= k < |VideoScaleOptions| && VideoScaleOptions[k] == r;
    OptionsDistinct(k);
  }

  /** The options are distinct, so an option's index is its position. */
  lemma OptionsDistinct(k: nat)
    requires k < |VideoScaleOptions|
    ensures ScaleIndex(VideoScaleOptions, VideoScaleOptions[k]) == k
  {
    var o := VideoScaleOptions;
    assert forall a, b :: 0 <= a < b < |o| ==> o[a] != o[b];
  }

  /** At the largest size, growing keeps the largest size. */
  lemma ScaleVideoSizeStaysAtLargest()
    ensures ScaleVideoSize("x4", true) == "x4"
  {
    OptionsDistinct(4);
  }


  /* ---------- The connection sweep ---------- */

  /** The records cleanupPeerConnections keeps: those of `keep` users, and records holding no connection. */
  function Swept(m: map<string, PeerRecord>, keep: set<string>): (r: map<string, PeerRecord>)
    ensures r.Keys <= m.Keys
    ensures forall u :: u in r ==> r[u] == m[u]
  {
    map u | u in m && (u in keep || !HasHandle(m[u])) :: m[u]
  }

  /** The connections the sweep closes: every handle of every record it drops. */
  function SweptHandles(m: map<string, PeerRecord>, keep: set<string>): set<Handle> {
    set u, h | u in m && u !in keep && h in Handles(m[u]) :: h
  }

  /**
   * What the sweep leaves: a record survives iff its user is on our screen,
   * watching us or a booted admin, or it holds no connection at all. With
   * well-formed records (every record holds a connection) exactly the keepers' records survive.
   */
  lemma SweptLeavesKeepers(m: map<string, PeerRecord>, keep: set<string>)
    ensures forall u :: u in Swept(m, keep) <==> u in m && (u in keep || !HasHandle(m[u]))
    ensures (forall u :: u in m ==> WellFormedRecord(m[u])) ==> Swept(m, keep).Keys == m.Keys * keep
  {
  }

  /** Sweeping twice closes nothing more. */
  lemma SweepIdempotent(m: map<string, PeerRecord>, keep: set<string>)
    ensures Swept(Swept(m, keep), keep) == Swept(m, keep)
    ensures SweptHandles(Swept(m, keep), keep) == {}
  {
    var s := Swept(m, keep);
    forall u | u in s && u !in keep ensures Handles(s[u]) == {} {
      assert !HasHandle(m[u]);
    }
  }

  /** One step of the sweep: deciding user `u` turns it from pending into kept or dropped. */
  lemma SweptStep(m: map<string, PeerRecord>, keep: set<string>, pending: set<string>, u: string)
    requires u in pending && u in m
    ensures u in keep ==> Swept(m, keep + (pending - {u})) == Swept(m, keep + pending)
                          && SweptHandles(m, keep + (pending - {u})) == SweptHandles(m, keep + pending)
    ensures u !in keep ==>
              Swept(m, keep + (pending - {u})) == (if HasHandle(m[u]) then Swept(m, keep + pending) - {u}
                                                    else Swept(m, keep + pending))
              && SweptHandles(m, keep + (pending - {u})) == SweptHandles(m, keep + pending) + Handles(m[u])
  {
    var k1, k2 := keep + pending, keep + (pending - {u});
    if u in keep {
      assert k1 == k2;
    } else {
      var a, b := SweptHandles(m, k2), SweptHandles(m, k1) + Handles(m[u]);
      forall h | h in b ensures h in a {
        if h !in Handles(m[u]) {
          var w :| w in m && w !in k1 && h in Handles(m[w]);
        }
      }
      forall h | h in a ensures h in b {
        var w :| w in m && w !in k2 && h in Handles(m[w]);
      }
    }
  }

  /** The connections held by the records of `users`. */
  function HandlesOf(m: map<string, PeerRecord>, users: set<string>): set<Handle> {
    set u, h | u in users && u in m && h in Handles(m[u]) :: h
  }

  /** One `unwatch` per user, in order. */
  function Unwatches(users: seq<string>): (r: seq<Outgoing>)
    ensures |r| == |users| && forall k :: 0 <= k < |users| ==> r[k] == Unwatch(users[k])
  {
    if |users| == 0 then [] else [Unwatch(users[0])] + Unwatches(users[1..])
  }

  /**
   * Closing one more user `x` after earlier closes and sweeps: with the
   * keepers only shrinking, the result is one sweep of the records left
   * after removing all closed users, and the handles closed add up.
   */
  lemma SweptAgain(m: map<string, PeerRecord>, done: set<string>, x: string,
                   keep: set<string>, keep2: set<string>)
    requires keep2 <= keep && x in Swept(m - done, keep)
    ensures Swept(Swept(m - done, keep) - {x}, keep2) == Swept(m - (done + {x}), keep2)
    ensures HandlesOf(m, done) + SweptHandles(m - done, keep) + Handles(m[x])
            + SweptHandles(Swept(m - done, keep) - {x}, keep2)
            == HandlesOf(m, done + {x}) + SweptHandles(m - (done + {x}), keep2)
  {
    var s := Swept(m - done, keep);
    var lhs := HandlesOf(m, done) + SweptHandles(m - done, keep) + Handles(m[x])
               + SweptHandles(s - {x}, keep2);
    var rhs := HandlesOf(m, done + {x}) + SweptHandles(m - (done + {x}), keep2);
    forall h | h in lhs ensures h in rhs {
      if h in HandlesOf(m, done) {
        var w :| w in done && w in m && h in Handles(m[w]);
      } else if h in SweptHandles(m - done, keep) {
        var w :| w in m - done && w !in keep && h in Handles((m - done)[w]);
        if w == x {
          assert h in Handles(m[x]);
        } else {
          assert w in m - (done + {x});
        }
      } else if h in Handles(m[x]) {
      } else {
        var w :| w in s - {x} && w !in keep2 && h in Handles((s - {x})[w]);
        assert w in m - (done + {x});
      }
    }
    forall h | h in rhs ensures h in lhs {
      if h in HandlesOf(m, done + {x}) {
        var w :| w in done + {x} && w in m && h in Handles(m[w]);
        if w != x {
          assert h in HandlesOf(m, done);
        }
      } else {
        var w :| w in m - (done + {x}) && w !in keep2 && h in Handles((m - (done + {x}))[w]);
        if w !in keep {
          assert h in SweptHandles(m - done, keep);
        } else {
          assert w in s - {x};
          assert h in SweptHandles(s - {x}, keep2);
        }
      }
    }
  }

  /** The per-camera bookkeeping closeVideo clears when a peer logs off, with the messages sent so far. */
  datatype CamBook = CamBook(sent: seq<Outgoing>, streams: map<string, StreamId>, watching: set<string>,
                             muted: map<string, bool>, poppedOut: map<string, bool>,
                             frozen: set<string>, intervals: map<string, Timer>)

  /** The bookkeeping after closing each of `users` as logged off, in order: one unwatch each, their entries gone. */
  function Forget(b: CamBook, users: seq<string>): (r: CamBook)
    ensures |r.sent| == |b.sent| + |users|
    ensures forall u :: u in users ==> u !in r.streams && u !in r.watching && u !in r.muted
  {
    var d := set u | u in users;
    CamBook(b.sent + Unwatches(users), b.streams - d, b.watching - d, b.muted - d,
            b.poppedOut - d, b.frozen - d, b.intervals - d)
  }

  /** Closing nobody changes nothing. */
  lemma ForgetNil(b: CamBook)
    ensures Forget(b, []) == b
  {
    var none: seq<string> := [];
    assert (set u | u in none) == {};
  }

  /** Closing a single user. */
  lemma ForgetOne(b: CamBook, x: string)
    ensures Forget(b, [x]) == CamBook(b.sent + [Unwatch(x)], b.streams - {x}, b.watching - {x}, b.muted - {x},
                                      b.poppedOut - {x}, b.frozen - {x}, b.intervals - {x})
  {
    assert (set u | u in [x]) == {x};
    assert Unwatches([x]) == [Unwatch(x)];
  }

  /** Closing one more user extends the bookkeeping step by step. */
  lemma ForgetSnoc(b: CamBook, users: seq<string>, x: string)
    ensures Forget(b, users + [x]) == Forget(Forget(b, users), [x])
  {
    var d := set u | u in users;
    assert (set u | u in users + [x]) == d + {x};
    assert (set u | u in [x]) == {x};
    UnwatchesSnoc(users, x);
    assert Unwatches([x]) == [Unwatch(x)];
    MinusTwice(b.streams, d, x);
    MinusTwice(b.muted, d, x);
    MinusTwice(b.poppedOut, d, x);
    MinusTwice(b.intervals, d, x);
  }

  /** The users of `who` whose camera requires ours and did not expressly invite us. */
  function MutualCamsOf(who: seq<WhoRow>): set<string> {
    set row | row in who && On(row.video, MutualRequired) && !InvitedActive(row) :: row.username
  }

  /** One more row adds its user when it is a mutual-only camera that did not invite us. */
  lemma MutualCamsSnoc(who: seq<WhoRow>, row: WhoRow)
    ensures MutualCamsOf(who + [row])
         == MutualCamsOf(who) + (if On(row.video, MutualRequired) && !InvitedActive(row) then {row.username} else {})
  {
  }

  /** The operators in `whoMap` that we booted or muted. */
  function BootedAdminsOf(booted: set<string>, muted: set<string>, whoMap: map<string, WhoRow>): set<string> {
    set u | u in whoMap && (u in booted || u in muted) && whoMap[u].op
  }

  /** Removing a key removes it from the keys. */
  lemma KeysMinus<V>(m: map<string, V>, x: string)
    ensures (m - {x}).Keys == m.Keys - {x}
  {
  }

  /** Appending a new element keeps a list duplicate-free. */
  lemma NoDupSnoc(s: seq<string>, x: string)
    requires NoDup(s) && x !in s
    ensures NoDup(s + [x])
  {
  }

  /** Unwatches of two lists, one after the other. */
  lemma UnwatchesAppend(a: seq<string>, b: seq<string>)
    ensures Unwatches(a + b) == Unwatches(a) + Unwatches(b)
  {
    var l, r := Unwatches(a + b), Unwatches(a) + Unwatches(b);
    forall k | 0 <= k < |l| ensures l[k] == r[k] {
      if k < |a| {
        assert (a + b)[k] == a[k];
      } else {
        assert (a + b)[k] == b[k - |a|];
      }
    }
  }

  /**
   * The users closed so far, in order, from streams `s0`: each one left the
   * streams, got one unwatch in `sent` and left `watching`, and no other user did.
   */
  ghost predicate RemovedInOrder(order: seq<string>, s0: map<string, StreamId>, s: map<string, StreamId>,
                                 sent0: seq<Outgoing>, sent: seq<Outgoing>, w0: set<string>, w: set<string>)
  {
    NoDup(order) && (forall u :: u in order <==> u in s0 && u !in s)
    && sent == sent0 + Unwatches(order) && w == w0 - (set u | u in order)
  }

  /** Closing one more user still on screen. */
  lemma RemovedSnoc(order: seq<string>, x: string, s0: map<string, StreamId>, s: map<string, StreamId>,
                    sent0: seq<Outgoing>, sent: seq<Outgoing>, w0: set<string>, w: set<string>)
    requires RemovedInOrder(order, s0, s, sent0, sent, w0, w) && x in s && s.Keys <= s0.Keys
    ensures RemovedInOrder(order + [x], s0, s - {x}, sent0, sent + [Unwatch(x)], w0, w - {x})
  {
    NoDupSnoc(order, x);
    UnwatchesSnoc(order, x);
    assert (set u | u in order + [x]) == (set u | u in order) + {x};
  }

  /** Concatenation is associative. */
  lemma ConcatAssoc<T>(a: seq<T>, b: seq<T>, c: seq<T>)
    ensures (a + b) + c == a + (b + c)
  {
  }

  /** Two passes one after the other. */
  lemma RemovedChain(o1: seq<string>, o2: seq<string>, s0: map<string, StreamId>, s1: map<string, StreamId>,
                     s2: map<string, StreamId>, sent0: seq<Outgoing>, sent1: seq<Outgoing>, sent2: seq<Outgoing>,
                     w0: set<string>, w1: set<string>, w2: set<string>)
    requires RemovedInOrder(o1, s0, s1, sent0, sent1, w0, w1) && RemovedInOrder(o2, s1, s2, sent1, sent2, w1, w2)
    requires s1.Keys <= s0.Keys && s2.Keys <= s1.Keys
    ensures RemovedInOrder(o1 + o2, s0, s2, sent0, sent2, w0, w2)
  {
    forall u | u in o1 ensures u !in o2 {
      assert u !in s1;
    }
    NoDupAppend(o1, o2);
    forall u ensures u in o1 + o2 <==> u in s0 && u !in s2 {
      if u in s0 && u !in s2 && u !in o1 {
        assert u in s1;
      }
    }
    UnwatchesAppend(o1, o2);
    var d1, d2 := set u | u in o1, set u | u in o2;
    assert (set u | u in o1 + o2) == d1 + d2;
    assert w2 == w0 - (d1 + d2);
    ConcatAssoc(sent0, Unwatches(o1), Unwatches(o2));
  }

  /** Two duplicate-free lists with nothing in common join into one. */
  lemma NoDupAppend(a: seq<string>, b: seq<string>)
    requires NoDup(a) && NoDup(b) && forall u :: u in a ==> u !in b
    ensures NoDup(a + b)
  {
    forall i, j | 0 <= i < j < |a + b| ensures (a + b)[i] != (a + b)[j] {
      if i < |a| && j >= |a| {
        assert (a + b)[i] in a && (a + b)[j] == b[j - |a|];
      }
    }
  }

  /** Appending a user appends its unwatch. */
  lemma UnwatchesSnoc(users: seq<string>, x: string)
    ensures Unwatches(users + [x]) == Unwatches(users) + [Unwatch(x)]
  {
  }

  /** Removing keys in two steps is removing them at once. */
  lemma MinusTwice<V>(m: map<string, V>, d: set<string>, x: string)
    ensures (m - d) - {x} == m - (d + {x})
  {
  }

  /** The handles of a single user's record. */
  lemma HandlesOfOne(m: map<string, PeerRecord>, x: string)
    requires x in m
    ensures HandlesOf(m, {x}) == Handles(m[x])
  {
    forall h | h in HandlesOf(m, {x}) ensures h in Handles(m[x]) {
      var w :| w in {x} && w in m && h in Handles(m[w]);
    }
  }

  /**
   * The records and closed handles after closing the users of `gone` one by one
   * from records `pc0`: each close drops that user's record and then sweeps with
   * the keepers of the moment (`keep` for the last sweep).
   */
  ghost predicate SweptSince(gone: seq<string>, keep: set<string>, pc0: map<string, PeerRecord>,
                             closed0: set<Handle>, pc: map<string, PeerRecord>, closed: set<Handle>)
  {
    var d := set u | u in gone;
    pc == (if gone == [] then pc0 else Swept(pc0 - d, keep))
    && closed == closed0 + HandlesOf(pc0, d) + (if gone == [] then {} else SweptHandles(pc0 - d, keep))
  }

  /** One more logged-off close, with keepers that only shrank, extends the summary. */
  lemma SweptSinceSnoc(gone: seq<string>, x: string, keep: set<string>, keep2: set<string>,
                       pc0: map<string, PeerRecord>, closed0: set<Handle>,
                       pc: map<string, PeerRecord>, closed: set<Handle>)
    requires SweptSince(gone, keep, pc0, closed0, pc, closed) && x in pc && keep2 <= keep
    ensures x in pc0 && pc[x] == pc0[x] && pc.Keys <= pc0.Keys
    ensures SweptSince(gone + [x], keep2, pc0, closed0, Swept(pc - {x}, keep2),
                       closed + Handles(pc[x]) + SweptHandles(pc - {x}, keep2))
  {
    var d := set u | u in gone;
    assert (set u | u in gone + [x]) == d + {x};
    if gone == [] {
      assert d + {x} == {x};
      HandlesOfOne(pc0, x);
    } else {
      SweptAgain(pc0, d, x, keep, keep2);
    }
  }

  /** The users closed so far: no repeats, each a mutual-only camera we held, none still held. */
  predicate ClosedUsers(gone: seq<string>, cams: set<string>, pc0: map<string, PeerRecord>,
                        pc: map<string, PeerRecord>)
  {
    NoDup(gone) && forall u :: u in gone ==> u in cams && u in pc0 && u !in pc
  }

  /** Closing one more held camera keeps the list of closed users honest. */
  lemma ClosedUsersSnoc(gone: seq<string>, x: string, cams: set<string>, pc0: map<string, PeerRecord>,
                        pc: map<string, PeerRecord>, pc': map<string, PeerRecord>)
    requires ClosedUsers(gone, cams, pc0, pc) && x in cams && x in pc0 && x in pc
    requires pc'.Keys <= pc.Keys && x !in pc'
    ensures ClosedUsers(gone + [x], cams, pc0, pc')
  {
    NoDupSnoc(gone, x);
  }

  /** What bootUser did. */
  datatype BootOutcome = Unbooted | UnbootCancelled | RateLimited | BootCancelled | BootedNow

  /** What openVideo did, in the order of its checks. */
  datatype OpenOutcome = OwnCamera | StatusHidden | NoVideoRule | TargetMuted | TargetBooted
                       | NsfwWarning | Debounced | TheyAreNonExplicit | WeAreNonExplicit
                       | NotAllowed | Requested

  /**
   * The checks openVideo makes before it touches any state. None means it goes on
   * (clears expresslyClosed, debounces, closes an old offerer connection).
   */
  function OpenPrecheck(v: Viewer, user: WhoRow, mutedUser: bool, bootedUser: bool, force: bool): Option<OpenOutcome> {
    if user.username == v.username then Some(OwnCamera)
    else if v.status == "hidden" then Some(StatusHidden)
    else if v.noVideoRule then Some(NoVideoRule)
    else if mutedUser && !v.isOp then Some(TargetMuted)
    else if bootedUser && !v.isOp then Some(TargetBooted)
    else if On(user.video, NSFW) && !v.skipNsfwModal && !force then Some(NsfwWarning)
    else None
  }

  /** The checks openVideo makes after the old connection is closed, on the listed row `their`. */
  function OpenFinalCheck(v: Viewer, cam: Webcam, user: WhoRow, their: WhoRow, mutedUser: bool, bootedUser: bool): OpenOutcome {
    if cam.active && cam.nsfw && On(their.video, Active) && On(their.video, NonExplicit) then TheyAreNonExplicit
    else if cam.active && cam.nonExplicit && On(their.video, Active) && On(their.video, NSFW) then WeAreNonExplicit
    else if IsVideoNotAllowed(v, cam, user, Some(their.vip), mutedUser, bootedUser) && !v.isOp then NotAllowed
    else Requested
  }

  /** openVideo's complete decision. */
  function OpenDecision(v: Viewer, cam: Webcam, user: WhoRow, their: WhoRow, mutedUser: bool, bootedUser: bool,
                        force: bool, debounced: bool): OpenOutcome {
    var pre := OpenPrecheck(v, user, mutedUser, bootedUser, force);
    if pre.Some? then pre.value
    else if debounced then Debounced
    else OpenFinalCheck(v, cam, user, their, mutedUser, bootedUser)
  }

  /**
   * An open request goes out only to someone else, while we are not hidden, have no
   * NoVideo rule, are not debounced, have passed the NSFW warning, the two
   * explicit-preference checks, and either the allow policy or operator rights.
   * An operator bypasses the muted, booted and allow checks, never the others.
   */
  lemma OpenRequestedIff(v: Viewer, cam: Webcam, user: WhoRow, their: WhoRow, mutedUser: bool, bootedUser: bool,
                         force: bool, debounced: bool)
    ensures OpenDecision(v, cam, user, their, mutedUser, bootedUser, force, debounced) == Requested
        <==> user.username != v.username && v.status != "hidden" && !v.noVideoRule
             && (v.isOp || (!mutedUser && !bootedUser))
             && (!On(user.video, NSFW) || v.skipNsfwModal || force)
             && !debounced && !ExplicitMismatch(cam, their.video)
             && (v.isOp || !IsVideoNotAllowed(v, cam, user, Some(their.vip), mutedUser, bootedUser))
  {
  }

  /* ---------- Pre-emptive boot rate limiting ---------- */

  const MaxFreeBoots: int := 10
  const CooldownTTL: int := 60

  /** `WebRTC.preemptBootRateLimit`: boots so far, and when the cooldown ends (ms since the epoch). */
  datatype BootLimiter = BootLimiter(counter: int, cooldownAt: Option<int>)

  /** The result of one call of rateLimitPreemptiveBoots and the limiter state it leaves. */
  datatype LimitStep = LimitStep(limited: bool, next: BootLimiter)

  /**
   * rateLimitPreemptiveBoots: whether booting someone who is not watching us is
   * refused at time `now`. A ping (the confirmed boot) consumes a free boot; at
   * the cap a ping re-arms the cooldown.
   */
  function RateLimitStep(s: BootLimiter, watchingMe: bool, ping: bool, now: int): LimitStep {
    if watchingMe then LimitStep(false, s)
    else if s.counter < MaxFreeBoots && !ping then LimitStep(false, s)
    else
      var c := if s.counter < MaxFreeBoots then s.counter + 1 else s.counter;
      if c < MaxFreeBoots then LimitStep(false, s.(counter := c))
      else if s.cooldownAt.Some? && now < s.cooldownAt.value then LimitStep(true, s.(counter := c))
      else LimitStep(false, BootLimiter(c, if ping then Some(now + CooldownTTL * 1000) else s.cooldownAt))
  }

  /** Booting someone who watches us is never limited and changes nothing. */
  lemma RateLimitIgnoresWatchers(s: BootLimiter, ping: bool, now: int)
    ensures RateLimitStep(s, true, ping, now) == LimitStep(false, s)
  {
  }

  /**
   * The counter moves only on a ping below the cap, by one, so it never leaves
   * 0..MaxFreeBoots; the cooldown time changes only on a ping that is not limited.
   */
  lemma RateLimitCounterBounded(s: BootLimiter, watchingMe: bool, ping: bool, now: int)
    requires 0 <= s.counter <= MaxFreeBoots
    ensures var r := RateLimitStep(s, watchingMe, ping, now);
            0 <= r.next.counter <= MaxFreeBoots
            && r.next.counter == (if !watchingMe && ping && s.counter < MaxFreeBoots then s.counter + 1 else s.counter)
            && (r.next.cooldownAt != s.cooldownAt ==> ping && !r.limited)
  {
  }

  /**
   * A boot is limited exactly when the target is not watching, the free boots are
   * used up (counting this ping), and the cooldown has not yet passed; a refused
   * call leaves the cooldown as it was.
   */
  lemma RateLimitLimitedIff(s: BootLimiter, watchingMe: bool, ping: bool, now: int)
    ensures var r := RateLimitStep(s, watchingMe, ping, now);
            r.limited <==> !watchingMe
                           && (s.counter >= MaxFreeBoots || (ping && s.counter + 1 >= MaxFreeBoots))
                           && s.cooldownAt.Some? && now < s.cooldownAt.value
  {
  }

  /** Once the free boots are spent, an allowed ping starts a 60-second cooldown. */
  lemma RateLimitArmsCooldown(s: BootLimiter, now: int)
    requires s.counter >= MaxFreeBoots
    requires s.cooldownAt.None? || now >= s.cooldownAt.value
    ensures RateLimitStep(s, false, true, now) == LimitStep(false, s.(cooldownAt := Some(now + 60000)))
  {
  }

  /* ---------- The stateful client ---------- */

  class WebRtcState {
    // WebRTC.*
    var pc: map<string, PeerRecord>
    var streams: map<string, StreamId>
    var muted: map<string, bool>
    var poppedOut: map<string, bool>
    var booted: set<string>
    var expresslyClosed: set<string>
    var debounceOpens: set<string>
    var openTimeouts: map<string, Timer>
    var frozenStreamDetected: set<string>
    var frozenStreamInterval: map<string, Timer>
    // webcam.watching: who has our camera open
    var watching: set<string>
    // WebRTC.preemptBootRateLimit
    var preemptBootRateLimit: BootLimiter

    // Read-only context for the operations modelled here.
    var webcam: Webcam
    var viewer: Viewer
    var appMuted: set<string>       // users the local user muted in chat (`this.muted`)
    var whoMap: map<string, WhoRow>
    var whoList: seq<WhoRow>

    // Effects.
    var sent: seq<Outgoing>
    var closed: set<Handle>
    var signals: seq<Signal>
    var attached: set<Handle>
    var recvOnly: set<Handle>

    ghost predicate Valid()
      reads this
    {
      (forall u :: u in pc ==> WellFormedRecord(pc[u]))
      && 0 <= preemptBootRateLimit.counter <= MaxFreeBoots
    }

    constructor (cam: Webcam, v: Viewer, mutedUsers: set<string>, who: seq<WhoRow>, wm: map<string, WhoRow>)
      ensures Valid()
      ensures pc == map[] && streams == map[] && muted == map[] && poppedOut == map[]
      ensures booted == {} && expresslyClosed == {} && debounceOpens == {} && openTimeouts == map[]
      ensures frozenStreamDetected == {} && frozenStreamInterval == map[] && watching == {}
      ensures preemptBootRateLimit == BootLimiter(0, None)
      ensures webcam == cam && viewer == v && appMuted == mutedUsers && whoList == who && whoMap == wm
      ensures sent == [] && closed == {} && signals == [] && attached == {} && recvOnly == {}
    {
      pc, streams, muted, poppedOut := map[], map[], map[], map[];
      booted, expresslyClosed, debounceOpens, openTimeouts := {}, {}, {}, map[];
      frozenStreamDetected, frozenStreamInterval, watching := {}, map[], {};
      preemptBootRateLimit := BootLimiter(0, None);
      webcam, viewer, appMuted, whoList, whoMap := cam, v, mutedUsers, who, wm;
      sent, closed, signals, attached, recvOnly := [], {}, [], {}, {};
    }

    /** isMutedUser. */
    predicate IsMutedUser(u: string) reads this {
      u in appMuted
    }

    /** isWatchingMe. */
    predicate IsWatchingMe(u: string) reads this`watching {
      u in watching
    }

    /** isBootedAdmin: an operator we booted or muted. */
    predicate IsBootedAdmin(u: string) reads this`booted, this`appMuted, this`whoMap {
      (u in booted || u in appMuted) && u in whoMap && whoMap[u].op
    }

    /** The operators we booted or muted. */
    function BootedAdmins(): set<string> reads this`booted, this`appMuted, this`whoMap {
      BootedAdminsOf(booted, appMuted, whoMap)
    }

    /** The users whose connections the sweep keeps: on our screen, watching us, or booted admins. */
    function Keepers(): set<string> reads this`streams, this`watching, this`booted, this`appMuted, this`whoMap {
      streams.Keys + watching + BootedAdmins()
    }

    /** startWebRTC, registry part: create or extend the record and set up the new connection's media. */
    method StartWebRTC(u: string, isOfferer: bool, h: Handle)
      requires Valid()
      requires isOfferer ==> u in whoMap
      modifies this`pc, this`attached, this`recvOnly
      ensures Valid()
      ensures var base := if u in old(pc) then old(pc)[u] else EmptyRecord;
              pc == old(pc)[u := if isOfferer then base.(offerer := Some(h), connecting := Some(h))
                                 else base.(answerer := Some(h), connecting := Some(h))]
      ensures !isOfferer ==> recvOnly == old(recvOnly)
                             && attached == old(attached) + (if webcam.active then {h} else {})
      ensures isOfferer ==>
                if ShouldOfferVideo(webcam, whoMap[u].video, u in booted, IsMutedUser(u))
                then attached == old(attached) + {h} && recvOnly == old(recvOnly)
                else attached == old(attached) && recvOnly == old(recvOnly) + {h}
    {
      var rec := if u in pc then pc[u] else EmptyRecord;
      if isOfferer {
        rec := rec.(offerer := Some(h));
      } else {
        rec := rec.(answerer := Some(h));
      }
      rec := rec.(connecting := Some(h));
      pc := pc[u := rec];
      if !isOfferer && webcam.active {
        attached := attached + {h};
      }
      if isOfferer {
        if ShouldOfferVideo(webcam, whoMap[u].video, u in booted, IsMutedUser(u)) {
          attached := attached + {h};
        } else {
          recvOnly := recvOnly + {h};
        }
      }
    }

    /** onCandidate: hand an ICE candidate to the connection being negotiated, if any. */
    method OnCandidate(u: string, payload: string)
      modifies this`signals
      ensures if u !in pc || pc[u].connecting.None? then signals == old(signals)
              else signals == old(signals) + [IceCandidate(pc[u].connecting.value, payload)]
    {
      if u !in pc || pc[u].connecting.None? {
        return;
      }
      signals := signals + [IceCandidate(pc[u].connecting.value, payload)];
    }

    /** onSDP: hand a session description to the connection being negotiated, if any. */
    method OnSDP(u: string, payload: string)
      modifies this`signals
      ensures if u !in pc || pc[u].connecting.None? then signals == old(signals)
              else signals == old(signals) + [RemoteDescription(pc[u].connecting.value, payload)]
    {
      if u !in pc || pc[u].connecting.None? {
        return;
      }
      signals := signals + [RemoteDescription(pc[u].connecting.value, payload)];
    }

    /**
     * pc.ontrack: a remote stream arrived on our offerer (isOfferer) or answerer
     * connection with `u`. `interval` is the freeze-check interval set up for the
     * stream's video track (None when it has no video track).
     */
    method OnTrack(u: string, isOfferer: bool, stream: StreamId, interval: Option<Timer>) returns (accepted: bool)
      modifies this`openTimeouts, this`streams, this`muted, this`sent, this`frozenStreamInterval
      ensures accepted == AcceptsTrack(isOfferer, webcam, u in expresslyClosed, IsBootedAdmin(u))
      ensures !accepted ==> openTimeouts == old(openTimeouts) && streams == old(streams) && muted == old(muted)
                            && sent == old(sent) && frozenStreamInterval == old(frozenStreamInterval)
      ensures accepted ==>
                openTimeouts == old(openTimeouts) - {u} && streams == old(streams)[u := stream]
                && muted == (if webcam.autoMuteWebcams then old(muted)[u := true] else old(muted))
                && sent == old(sent) + [Watch(u)]
                && frozenStreamInterval == (if interval.Some? then old(frozenStreamInterval)[u := interval.value]
                                            else old(frozenStreamInterval))
    {
      if !isOfferer && !webcam.mutualOpen {
        return false;
      }
      if u in expresslyClosed && webcam.rememberExpresslyClosed {
        if !isOfferer {
          return false;
        }
      }
      if IsBootedAdmin(u) {
        return false;
      }
      openTimeouts := openTimeouts - {u};
      if u !in streams || streams[u] != stream {
        streams := streams[u := stream];
      }
      if webcam.autoMuteWebcams {
        muted := muted[u := true];
      }
      sent := sent + [Watch(u)];
      if interval.Some? {
        frozenStreamInterval := frozenStreamInterval[u := interval.value];
      }
      accepted := true;
    }

    /** onWatch: the peer opened our camera (ignored for booted admins). */
    method OnWatch(u: string)
      modifies this`watching
      ensures watching == if IsBootedAdmin(u) then old(watching) else old(watching) + {u}
    {
      if IsBootedAdmin(u) {
        return;
      }
      watching := watching + {u};
    }

    /** onUnwatch: the peer closed our camera; sweep lingering connections. */
    method OnUnwatch(u: string)
      requires Valid()
      modifies this`watching, this`pc, this`closed
      ensures Valid()
      ensures watching == old(watching) - {u}
      ensures pc == Swept(old(pc), Keepers())
      ensures closed == old(closed) + SweptHandles(old(pc), Keepers())
    {
      watching := watching - {u};
      CleanupPeerConnections();
    }

    /**
     * cleanupPeerConnections: close and forget every connection with a user who is
     * not on our screen, not watching us and not a booted admin.
     */
    method CleanupPeerConnections()
      requires Valid()
      modifies this`pc, this`closed
      ensures Valid()
      ensures pc == Swept(old(pc), Keepers())
      ensures closed == old(closed) + SweptHandles(old(pc), Keepers())
    {
      var keep := Keepers();
      var pending := pc.Keys;
      while pending != {}
        invariant pending <= old(pc).Keys
        invariant pc == Swept(old(pc), keep + pending)
        invariant closed == old(closed) + SweptHandles(old(pc), keep + pending)
        decreases pending
      {
        var u :| u in pending;
        SweptStep(old(pc), keep, pending, u);
        SweepOne(u, keep);
        pending := pending - {u};
      }
      assert keep + pending == keep;
    }

    /** One iteration of cleanupPeerConnections' loop, for user `u`. */
    method SweepOne(u: string, ghost keep: set<string>)
      requires u in pc && keep == Keepers()
      modifies this`pc, this`closed
      ensures u !in keep && HasHandle(old(pc)[u]) ==> pc == old(pc) - {u} && closed == old(closed) + Handles(old(pc)[u])
      ensures u !in keep && !HasHandle(old(pc)[u]) ==> pc == old(pc) && closed == old(closed) + Handles(old(pc)[u])
      ensures u in keep ==> pc == old(pc) && closed == old(closed)
    {
      var rec := pc[u];
      if u in streams || IsWatchingMe(u) || IsBootedAdmin(u) {
        return;
      }
      if rec.answerer.Some? {
        closed := closed + {rec.answerer.value};
        pc := pc - {u};
      }
      if rec.offerer.Some? {
        closed := closed + {rec.offerer.value};
        pc := pc - {u};
      }
    }

    /**
     * The state closeVideo(u, "offerer") leaves behind, from the state before
     * it, apart from the freeze state: `u`'s stream, mute and pop-out entries
     * are gone, its offerer connection is closed and its record dropped (unless
     * mutual-open keeps it for a peer watching us), and then the sweep runs.
     */
    ghost predicate OffererClosed(u: string, pc0: map<string, PeerRecord>, closed0: set<Handle>,
                                  streams0: map<string, StreamId>, muted0: map<string, bool>,
                                  poppedOut0: map<string, bool>, watching0: set<string>)
      reads this`streams, this`muted, this`poppedOut, this`watching, this`pc, this`closed,
            this`booted, this`appMuted, this`whoMap, this`webcam
    {
      var hangUp := u in pc0 && pc0[u].offerer.Some? && !(webcam.mutualOpen && u in watching0);
      var mid := if hangUp then pc0 - {u} else pc0;
      streams == streams0 - {u} && muted == muted0 - {u} && poppedOut == poppedOut0 - {u}
      && watching == watching0
      && pc == Swept(mid, Keepers())
      && closed == closed0 + (if hangUp then {pc0[u].offerer.value} else {}) + SweptHandles(mid, Keepers())
    }

    /** OffererClosed together with the freeze state closeVideo clears first. */
    ghost predicate DroppedOfferer(u: string, pc0: map<string, PeerRecord>, closed0: set<Handle>,
                                   streams0: map<string, StreamId>, muted0: map<string, bool>,
                                   poppedOut0: map<string, bool>, watching0: set<string>,
                                   frozen0: set<string>, interval0: map<string, Timer>)
      reads this`streams, this`muted, this`poppedOut, this`watching, this`frozenStreamDetected,
            this`frozenStreamInterval, this`pc, this`closed, this`booted, this`appMuted, this`whoMap, this`webcam
    {
      OffererClosed(u, pc0, closed0, streams0, muted0, poppedOut0, watching0)
      && frozenStreamDetected == frozen0 - {u} && frozenStreamInterval == interval0 - {u}
    }

    /**
     * The state closeVideo(u, "answerer") leaves behind: only `u`'s answerer
     * connection is closed and its record dropped (with the same mutual-open
     * exception), and then the sweep runs; streams, mutes, pop-outs and
     * watchers are untouched.
     */
    ghost predicate AnswererClosed(u: string, pc0: map<string, PeerRecord>, closed0: set<Handle>,
                                   streams0: map<string, StreamId>, muted0: map<string, bool>,
                                   poppedOut0: map<string, bool>, watching0: set<string>)
      reads this`streams, this`muted, this`poppedOut, this`watching, this`pc, this`closed,
            this`booted, this`appMuted, this`whoMap, this`webcam
    {
      var hangUp := u in pc0 && pc0[u].answerer.Some? && !(webcam.mutualOpen && u in watching0);
      var mid := if hangUp then pc0 - {u} else pc0;
      streams == streams0 && muted == muted0 && poppedOut == poppedOut0 && watching == watching0
      && pc == Swept(mid, Keepers())
      && closed == closed0 + (if hangUp then {pc0[u].answerer.value} else {}) + SweptHandles(mid, Keepers())
    }

    /**
     * The state closeVideo(u) with no role leaves behind, apart from the freeze
     * state: `u` logged off, so its stream and watch entries are gone, both its
     * connections are closed, its record (with its mute and pop-out entries,
     * when it had one) is dropped, and then the sweep runs.
     */
    ghost predicate PeerGone(u: string, pc0: map<string, PeerRecord>, closed0: set<Handle>,
                             streams0: map<string, StreamId>, muted0: map<string, bool>,
                             poppedOut0: map<string, bool>, watching0: set<string>)
      reads this`streams, this`muted, this`poppedOut, this`watching, this`pc, this`closed,
            this`booted, this`appMuted, this`whoMap, this`webcam
    {
      var had := u in pc0;
      var mid := pc0 - {u};
      streams == streams0 - {u} && watching == watching0 - {u}
      && muted == (if had then muted0 - {u} else muted0)
      && poppedOut == (if had then poppedOut0 - {u} else poppedOut0)
      && pc == Swept(mid, Keepers()) && u !in pc
      && closed == closed0 + (if had then Handles(pc0[u]) else {}) + SweptHandles(mid, Keepers())
    }

    /**
     * closeVideo: forget a peer's video. The offerer and answerer roles hang up that
     * side unless `mutualOpen` is on and the peer is watching us; any other role
     * (the peer logged off) tears everything down. Each role's branch is its own
     * method below.
     */
    method CloseVideo(u: string, role: CloseRole)
      requires Valid()
      modifies this`frozenStreamDetected, this`frozenStreamInterval, this`streams, this`muted,
               this`poppedOut, this`pc, this`closed, this`sent, this`watching
      ensures Valid()
      ensures frozenStreamDetected == old(frozenStreamDetected) - {u}
      ensures frozenStreamInterval == old(frozenStreamInterval) - {u}
      ensures pc.Keys <= old(pc).Keys
      ensures role == Offerer ==>
                OffererClosed(u, old(pc), old(closed), old(streams), old(muted), old(poppedOut), old(watching))
                && sent == old(sent) + [Unwatch(u)]
      ensures role == Answerer ==>
                AnswererClosed(u, old(pc), old(closed), old(streams), old(muted), old(poppedOut), old(watching))
                && sent == old(sent)
      ensures role == LoggedOff ==>
                PeerGone(u, old(pc), old(closed), old(streams), old(muted), old(poppedOut), old(watching))
                && sent == old(sent) + [Unwatch(u)]
    {
      frozenStreamDetected := frozenStreamDetected - {u};
      frozenStreamInterval := frozenStreamInterval - {u};
      match role
      case Offerer => CloseOffererSide(u);
      case Answerer => CloseAnswererSide(u);
      case LoggedOff => ClosePeerLoggedOff(u);
    }

    /** closeVideo(u, "offerer"): we stop watching `u`. */
    method CloseOffererSide(u: string)
      requires Valid()
      modifies this`streams, this`muted, this`poppedOut, this`pc, this`closed, this`sent
      ensures Valid()
      ensures OffererClosed(u, old(pc), old(closed), old(streams), old(muted), old(poppedOut), old(watching))
      ensures sent == old(sent) + [Unwatch(u)]
      ensures pc.Keys <= old(pc).Keys
    {
      streams := streams - {u};
      muted := muted - {u};
      poppedOut := poppedOut - {u};
      if u in pc && pc[u].offerer.Some? {
        if webcam.mutualOpen && IsWatchingMe(u) {
          // Close locally only: our viewer's copy of our camera may ride on this connection.
        } else {
          closed := closed + {pc[u].offerer.value};
          pc := pc - {u};
        }
      }
      sent := sent + [Unwatch(u)];
      CleanupPeerConnections();
    }

    /** closeVideo(u, "answerer"): `u` stops watching us. No unwatch is sent. */
    method CloseAnswererSide(u: string)
      requires Valid()
      modifies this`pc, this`closed
      ensures Valid()
      ensures AnswererClosed(u, old(pc), old(closed), old(streams), old(muted), old(poppedOut), old(watching))
      ensures pc.Keys <= old(pc).Keys
    {
      if u in pc && pc[u].answerer.Some? {
        if webcam.mutualOpen && IsWatchingMe(u) {
        } else {
          closed := closed + {pc[u].answerer.value};
          pc := pc - {u};
        }
      }
      CleanupPeerConnections();
    }

    /** closeVideo(u) with no role: `u` logged off; close both directions. */
    method ClosePeerLoggedOff(u: string)
      requires Valid()
      modifies this`streams, this`watching, this`muted, this`poppedOut, this`pc, this`closed, this`sent,
               this`frozenStreamDetected, this`frozenStreamInterval
      ensures Valid()
      ensures PeerGone(u, old(pc), old(closed), old(streams), old(muted), old(poppedOut), old(watching))
      ensures frozenStreamDetected == old(frozenStreamDetected) - {u}
      ensures frozenStreamInterval == old(frozenStreamInterval) - {u}
      ensures sent == old(sent) + [Unwatch(u)]
      ensures pc.Keys <= old(pc).Keys
    {
      streams := streams - {u};
      watching := watching - {u};
      HangUpBoth(u);
      frozenStreamDetected := frozenStreamDetected - {u};
      frozenStreamInterval := frozenStreamInterval - {u};
      sent := sent + [Unwatch(u)];
      CleanupPeerConnections();
    }

    /** The logged-off branch's hang-up: close both directions and forget the record. */
    method HangUpBoth(u: string)
      requires Valid()
      modifies this`muted, this`poppedOut, this`pc, this`closed
      ensures Valid()
      ensures var had := u in old(pc);
              pc == old(pc) - {u}
              && muted == (if had then old(muted) - {u} else old(muted))
              && poppedOut == (if had then old(poppedOut) - {u} else old(poppedOut))
              && closed == old(closed) + (if had then Handles(old(pc)[u]) else {})
    {
      if u in pc {
        if pc[u].offerer.Some? {
          closed := closed + {pc[u].offerer.value};
        }
        if pc[u].answerer.Some? {
          closed := closed + {pc[u].answerer.value};
        }
        pc := pc - {u};
        muted := muted - {u};
        poppedOut := poppedOut - {u};
      }
    }

    /** expresslyCloseVideo: remember that we closed this camera on purpose, then close it. */
    method ExpresslyCloseVideo(u: string, role: CloseRole)
      requires Valid()
      modifies this`expresslyClosed, this`frozenStreamDetected, this`frozenStreamInterval, this`streams,
               this`muted, this`poppedOut, this`pc, this`closed, this`sent, this`watching
      ensures Valid()
      ensures expresslyClosed == old(expresslyClosed) + {u}
      ensures frozenStreamDetected == old(frozenStreamDetected) - {u}
      ensures frozenStreamInterval == old(frozenStreamInterval) - {u}
      ensures pc.Keys <= old(pc).Keys
      ensures role == Offerer ==>
                OffererClosed(u, old(pc), old(closed), old(streams), old(muted), old(poppedOut), old(watching))
                && sent == old(sent) + [Unwatch(u)]
      ensures role == Answerer ==>
                AnswererClosed(u, old(pc), old(closed), old(streams), old(muted), old(poppedOut), old(watching))
                && sent == old(sent)
      ensures role == LoggedOff ==>
                PeerGone(u, old(pc), old(closed), old(streams), old(muted), old(poppedOut), old(watching))
                && sent == old(sent) + [Unwatch(u)]
    {
      expresslyClosed := expresslyClosed + {u};
      CloseVideo(u, role);
    }

    /** rateLimitPreemptiveBoots(u, ping) at time `now`. */
    method RateLimitPreemptiveBoots(u: string, ping: bool, now: int) returns (limited: bool)
      requires Valid()
      modifies this`preemptBootRateLimit
      ensures Valid()
      ensures LimitStep(limited, preemptBootRateLimit)
              == RateLimitStep(old(preemptBootRateLimit), u in watching, ping, now)
    {
      var cooldownAt := preemptBootRateLimit.cooldownAt;
      if !IsWatchingMe(u) {
        if preemptBootRateLimit.counter < MaxFreeBoots {
          if !ping {
            return false;
          }
          preemptBootRateLimit := preemptBootRateLimit.(counter := preemptBootRateLimit.counter + 1);
        }
        if preemptBootRateLimit.counter >= MaxFreeBoots {
          if cooldownAt.Some? {
            if now < cooldownAt.value {
              return true;
            }
          }
          if ping {
            preemptBootRateLimit := preemptBootRateLimit.(cooldownAt := Some(now + CooldownTTL * 1000));
          }
        }
      }
      return false;
    }

    /** doBootUser: tell the server, remember the boot, drop any connection and stop counting them as a viewer. */
    method DoBootUser(u: string)
      requires Valid()
      modifies this`booted, this`frozenStreamDetected, this`frozenStreamInterval, this`streams, this`muted,
               this`poppedOut, this`pc, this`closed, this`sent, this`watching
      ensures Valid()
      ensures booted == old(booted) + {u} && u !in watching && u !in pc
      ensures |sent| > |old(sent)| && sent[..|old(sent)| + 1] == old(sent) + [Boot(u)]
      ensures u !in old(pc) ==>
                sent == old(sent) + [Boot(u)] && pc == old(pc) && closed == old(closed)
                && streams == old(streams) && watching == old(watching) - {u}
      ensures u in old(pc) ==>
                var mid := old(pc) - {u};
                sent == old(sent) + [Boot(u), Unwatch(u)]
                && streams == old(streams) - {u} && watching == old(watching) - {u}
                && muted == old(muted) - {u} && poppedOut == old(poppedOut) - {u}
                && frozenStreamDetected == old(frozenStreamDetected) - {u}
                && frozenStreamInterval == old(frozenStreamInterval) - {u}
                && pc == Swept(mid, Keepers())
                && closed == old(closed) + Handles(old(pc)[u]) + SweptHandles(mid, Keepers())
    {
      sent := sent + [Boot(u)];
      booted := booted + {u};
      if u in pc {
        CloseVideo(u, LoggedOff);
      }
      watching := watching - {u};
    }

    /**
     * bootUser: un-boot a booted user after confirmation, or boot someone else
     * unless the rate limiter refuses (checked before and after the confirmation).
     * `confirmed` is the user's answer to the modal; `nowAsked` and `nowConfirmed`
     * are the clock readings of the two rate-limit checks.
     */
    method BootUser(u: string, confirmed: bool, nowAsked: int, nowConfirmed: int) returns (outcome: BootOutcome)
      requires Valid()
      modifies this`booted, this`preemptBootRateLimit, this`frozenStreamDetected, this`frozenStreamInterval,
               this`streams, this`muted, this`poppedOut, this`pc, this`closed, this`sent, this`watching
      ensures Valid()
      ensures u in old(booted) ==> outcome == (if confirmed then Unbooted else UnbootCancelled)
      ensures outcome == Unbooted ==> booted == old(booted) - {u} && sent == old(sent) + [Unboot(u)] && pc == old(pc)
      ensures outcome in {UnbootCancelled, RateLimited, BootCancelled} ==>
                booted == old(booted) && sent == old(sent) && pc == old(pc) && watching == old(watching)
      ensures outcome == BootCancelled ==> !confirmed && preemptBootRateLimit == old(preemptBootRateLimit)
      ensures outcome == BootedNow ==> confirmed && booted == old(booted) + {u} && u !in pc && u !in watching
      ensures u !in old(booted) && u in old(watching) ==> outcome == (if confirmed then BootedNow else BootCancelled)
    {
      if u in booted {
        if confirmed {
          sent := sent + [Unboot(u)];
          booted := booted - {u};
          return Unbooted;
        }
        return UnbootCancelled;
      }
      var limited := RateLimitPreemptiveBoots(u, false, nowAsked);
      if limited {
        return RateLimited;
      }
      if !confirmed {
        return BootCancelled;
      }
      limited := RateLimitPreemptiveBoots(u, true, nowConfirmed);
      if limited {
        return RateLimited;
      }
      DoBootUser(u);
      return BootedNow;
    }

    /**
     * openVideo(user, force): ask to watch `user`'s camera. `timer` is the id of the
     * 10-second spinner timeout armed on success.
     */
    method OpenVideo(user: WhoRow, force: bool, timer: Timer) returns (outcome: OpenOutcome)
      requires Valid()
      requires user.username in whoMap
      modifies this`expresslyClosed, this`debounceOpens, this`openTimeouts, this`frozenStreamDetected,
               this`frozenStreamInterval, this`streams, this`muted, this`poppedOut, this`pc, this`closed,
               this`sent, this`watching
      ensures Valid()
      ensures var u := user.username;
              outcome == OpenDecision(viewer, webcam, user, whoMap[u], IsMutedUser(u), u in booted, force,
                                      u in old(debounceOpens))
      ensures var u := user.username;
              OpenPrecheck(viewer, user, IsMutedUser(u), u in booted, force).Some? ==>
                expresslyClosed == old(expresslyClosed) && debounceOpens == old(debounceOpens)
                && openTimeouts == old(openTimeouts) && pc == old(pc) && streams == old(streams)
                && sent == old(sent) && closed == old(closed)
      ensures var u := user.username;
              OpenPrecheck(viewer, user, IsMutedUser(u), u in booted, force).None? ==>
                expresslyClosed == old(expresslyClosed) - {u}
      ensures outcome == Debounced ==>
                debounceOpens == old(debounceOpens) && openTimeouts == old(openTimeouts) && pc == old(pc)
                && streams == old(streams) && sent == old(sent) && closed == old(closed)
      ensures var u := user.username;
              OpenPrecheck(viewer, user, IsMutedUser(u), u in booted, force).None? && u !in old(debounceOpens) ==>
                debounceOpens == old(debounceOpens) + {u} && pc.Keys <= old(pc).Keys
                && openTimeouts == (if outcome == Requested then old(openTimeouts)[u := timer] else old(openTimeouts))
      ensures var u := user.username;
              OpenPrecheck(viewer, user, IsMutedUser(u), u in booted, force).None? && u !in old(debounceOpens)
              && !(u in old(pc) && old(pc)[u].offerer.Some?) ==>
                pc == old(pc) && streams == old(streams) && closed == old(closed)
                && muted == old(muted) && poppedOut == old(poppedOut) && watching == old(watching)
                && frozenStreamDetected == old(frozenStreamDetected)
                && frozenStreamInterval == old(frozenStreamInterval)
      ensures var u := user.username;
              OpenPrecheck(viewer, user, IsMutedUser(u), u in booted, force).None? && u !in old(debounceOpens)
              && u in old(pc) && old(pc)[u].offerer.Some? ==>
                DroppedOfferer(u, old(pc), old(closed), old(streams), old(muted), old(poppedOut),
                               old(watching), old(frozenStreamDetected), old(frozenStreamInterval))
      ensures var u := user.username;
              var hadOfferer := u in old(pc) && old(pc)[u].offerer.Some?;
              OpenPrecheck(viewer, user, IsMutedUser(u), u in booted, force).None? && u !in old(debounceOpens) ==>
                sent == old(sent) + (if hadOfferer then [Unwatch(u)] else [])
                                  + (if outcome == Requested then [Open(u)] else [])
    {
      var u := user.username;
      // own camera, hidden status, NoVideo rule, muted or booted target, NSFW warning
      var pre := OpenPrecheck(viewer, user, IsMutedUser(u), u in booted, force);
      if pre.Some? {
        return pre.value;
      }
      outcome := ClearAndRequest(user, timer);
    }

    /** openVideo past its pre-checks: forget the express close, then debounce or request. */
    method ClearAndRequest(user: WhoRow, timer: Timer) returns (outcome: OpenOutcome)
      requires Valid()
      requires user.username in whoMap
      modifies this`expresslyClosed, this`debounceOpens, this`openTimeouts, this`frozenStreamDetected,
               this`frozenStreamInterval, this`streams, this`muted, this`poppedOut, this`pc, this`closed,
               this`sent, this`watching
      ensures Valid()
      ensures expresslyClosed == old(expresslyClosed) - {user.username}
      ensures user.username in old(debounceOpens) ==>
                outcome == Debounced
                && debounceOpens == old(debounceOpens) && openTimeouts == old(openTimeouts) && pc == old(pc)
                && streams == old(streams) && sent == old(sent) && closed == old(closed)
      ensures var u := user.username;
              u !in old(debounceOpens) ==>
                outcome == OpenFinalCheck(viewer, webcam, user, whoMap[u], IsMutedUser(u), u in booted)
                && debounceOpens == old(debounceOpens) + {u} && pc.Keys <= old(pc).Keys
                && openTimeouts == (if outcome == Requested then old(openTimeouts)[u := timer] else old(openTimeouts))
      ensures var u := user.username;
              u !in old(debounceOpens) && !(u in old(pc) && old(pc)[u].offerer.Some?) ==>
                pc == old(pc) && streams == old(streams) && closed == old(closed)
                && muted == old(muted) && poppedOut == old(poppedOut) && watching == old(watching)
                && frozenStreamDetected == old(frozenStreamDetected)
                && frozenStreamInterval == old(frozenStreamInterval)
      ensures var u := user.username;
              u !in old(debounceOpens) && u in old(pc) && old(pc)[u].offerer.Some? ==>
                DroppedOfferer(u, old(pc), old(closed), old(streams), old(muted), old(poppedOut),
                               old(watching), old(frozenStreamDetected), old(frozenStreamInterval))
      ensures var u := user.username;
              var hadOfferer := u in old(pc) && old(pc)[u].offerer.Some?;
              u !in old(debounceOpens) ==>
                sent == old(sent) + (if hadOfferer then [Unwatch(u)] else [])
                                  + (if outcome == Requested then [Open(u)] else [])
    {
      var u := user.username;
      expresslyClosed := expresslyClosed - {u};
      if u in debounceOpens {
        return Debounced;
      }
      outcome := RequestOpen(user, timer);
    }

    /** openVideo past its pre-checks and debounce: close any old offerer connection, check again, send the request. */
    method RequestOpen(user: WhoRow, timer: Timer) returns (outcome: OpenOutcome)
      requires Valid()
      requires user.username in whoMap
      modifies this`debounceOpens, this`openTimeouts, this`frozenStreamDetected,
               this`frozenStreamInterval, this`streams, this`muted, this`poppedOut, this`pc, this`closed,
               this`sent, this`watching
      ensures Valid()
      ensures var u := user.username;
              outcome == OpenFinalCheck(viewer, webcam, user, whoMap[u], IsMutedUser(u), u in booted)
      ensures debounceOpens == old(debounceOpens) + {user.username} && pc.Keys <= old(pc).Keys
      ensures var u := user.username;
              !(u in old(pc) && old(pc)[u].offerer.Some?) ==>
                pc == old(pc) && streams == old(streams) && closed == old(closed)
                && muted == old(muted) && poppedOut == old(poppedOut) && watching == old(watching)
                && frozenStreamDetected == old(frozenStreamDetected)
                && frozenStreamInterval == old(frozenStreamInterval)
      ensures var u := user.username;
              u in old(pc) && old(pc)[u].offerer.Some? ==>
                DroppedOfferer(u, old(pc), old(closed), old(streams), old(muted), old(poppedOut),
                               old(watching), old(frozenStreamDetected), old(frozenStreamInterval))
      ensures var u := user.username;
              var hadOfferer := u in old(pc) && old(pc)[u].offerer.Some?;
              sent == old(sent) + (if hadOfferer then [Unwatch(u)] else [])
                                + (if outcome == Requested then [Open(u)] else [])
      ensures openTimeouts == (if outcome == Requested then old(openTimeouts)[user.username := timer]
                               else old(openTimeouts))
    {
      var u := user.username;
      DebounceAndDrop(u);
      // the two explicit-preference checks, then isVideoNotAllowed unless we are an operator
      outcome := OpenFinalCheck(viewer, webcam, user, whoMap[u], IsMutedUser(u), u in booted);
      if outcome == Requested {
        openTimeouts := openTimeouts[u := timer];
        sent := sent + [Open(u)];
      }
    }

    /** The start of the open request: debounce further clicks and close any old offerer connection. */
    method DebounceAndDrop(u: string)
      requires Valid()
      modifies this`debounceOpens, this`frozenStreamDetected, this`frozenStreamInterval, this`streams, this`muted,
               this`poppedOut, this`pc, this`closed, this`sent, this`watching
      ensures Valid()
      ensures var hadOfferer := u in old(pc) && old(pc)[u].offerer.Some?;
              debounceOpens == old(debounceOpens) + {u}
              && (!hadOfferer ==> pc == old(pc) && streams == old(streams) && closed == old(closed)
                                  && muted == old(muted) && poppedOut == old(poppedOut) && watching == old(watching)
                                  && frozenStreamDetected == old(frozenStreamDetected)
                                  && frozenStreamInterval == old(frozenStreamInterval))
              && (hadOfferer ==> DroppedOfferer(u, old(pc), old(closed), old(streams), old(muted), old(poppedOut),
                                                old(watching), old(frozenStreamDetected), old(frozenStreamInterval)))
              && sent == old(sent) + (if hadOfferer then [Unwatch(u)] else [])
      ensures pc.Keys <= old(pc).Keys
    {
      debounceOpens := debounceOpens + {u};
      if u in pc && pc[u].offerer.Some? {
        DropOffererConnection(u);
      }
    }

    /** closeVideo(u, "offerer") as openVideo uses it. */
    method DropOffererConnection(u: string)
      requires Valid()
      modifies this`frozenStreamDetected, this`frozenStreamInterval, this`streams, this`muted,
               this`poppedOut, this`pc, this`closed, this`sent, this`watching
      ensures Valid()
      ensures DroppedOfferer(u, old(pc), old(closed), old(streams), old(muted), old(poppedOut), old(watching),
                             old(frozenStreamDetected), old(frozenStreamInterval))
              && sent == old(sent) + [Unwatch(u)]
    {
      CloseVideo(u, Offerer);
    }

    /** The users whose mutual-required camera we must stop watching once ours is off. */
    function MutualCams(): set<string> reads this`whoList {
      MutualCamsOf(whoList)
    }

    /**
     * unMutualVideo: with our camera now off, stop watching every mutual-required
     * camera we hold a connection with, except ones that expressly invited us.
     * `gone` lists, in Who List order, the users closed as logged off; each close
     * sends an unwatch and sweeps, so the records of other users change only by
     * the sweep.
     */
    method UnMutualVideo() returns (ghost gone: seq<string>)
      requires Valid()
      modifies this`frozenStreamDetected, this`frozenStreamInterval, this`streams, this`muted,
               this`poppedOut, this`pc, this`closed, this`sent, this`watching
      ensures Valid()
      ensures webcam.active ==> gone == []
      ensures !webcam.active ==> forall u :: u in MutualCams() ==> u !in pc
      ensures ClosedUsers(gone, MutualCams(), old(pc), pc)
      ensures Book() == Forget(old(Book()), gone)
      ensures SweptSince(gone, Keepers(), old(pc), old(closed), pc, closed)
    {
      if webcam.active {
        gone := [];
        ForgetNil(Book());
        return;
      }
      gone := UnMutualLoop();
    }

    /** unMutualVideo's loop over the Who List, with our camera off. */
    method UnMutualLoop() returns (ghost gone: seq<string>)
      requires Valid()
      modifies this`frozenStreamDetected, this`frozenStreamInterval, this`streams, this`muted,
               this`poppedOut, this`pc, this`closed, this`sent, this`watching
      ensures Valid() && ClosedSoFar(gone, old(pc), old(closed), old(Book()))
      ensures forall u :: u in MutualCams() ==> u !in pc
    {
      gone := [];
      ghost var pc0, closed0, b0 := pc, closed, Book();
      ForgetNil(b0);
      var i := 0;
      while i < |whoList|
        invariant 0 <= i <= |whoList|
        invariant Valid()
        invariant ClosedSoFar(gone, pc0, closed0, b0)
        invariant forall u :: u in MutualCamsOf(whoList[..i]) ==> u !in pc
      {
        MutualCamsSnoc(whoList[..i], whoList[i]);
        assert whoList[..i + 1] == whoList[..i] + [whoList[i]];
        gone := UnMutualRow(whoList[i], gone, pc0, closed0, b0);
        i := i + 1;
      }
      assert whoList[..i] == whoList;
    }

    /** The bookkeeping closeVideo clears, as one value. */
    function Book(): CamBook
      reads this`sent, this`streams, this`watching, this`muted, this`poppedOut,
            this`frozenStreamDetected, this`frozenStreamInterval
    {
      CamBook(sent, streams, watching, muted, poppedOut, frozenStreamDetected, frozenStreamInterval)
    }

    /**
     * The state unMutualVideo's loop has reached: the users of `gone` were closed
     * as logged off, in order, starting from records `pc0`, closed handles
     * `closed0` and bookkeeping `b0`.
     */
    ghost predicate ClosedSoFar(gone: seq<string>, pc0: map<string, PeerRecord>, closed0: set<Handle>, b0: CamBook)
      reads this`pc, this`closed, this`sent, this`streams, this`watching, this`muted, this`poppedOut,
            this`frozenStreamDetected, this`frozenStreamInterval, this`booted, this`appMuted, this`whoMap,
            this`whoList
    {
      ClosedUsers(gone, MutualCams(), pc0, pc) && Book() == Forget(b0, gone)
      && SweptSince(gone, Keepers(), pc0, closed0, pc, closed)
    }

    /** One row of unMutualVideo's loop. */
    method UnMutualRow(row: WhoRow, ghost gone: seq<string>, ghost pc0: map<string, PeerRecord>,
                       ghost closed0: set<Handle>, ghost b0: CamBook)
      returns (ghost gone': seq<string>)
      requires Valid() && row in whoList
      requires ClosedSoFar(gone, pc0, closed0, b0)
      modifies this`frozenStreamDetected, this`frozenStreamInterval, this`streams, this`muted,
               this`poppedOut, this`pc, this`closed, this`sent, this`watching
      ensures Valid() && pc.Keys <= old(pc).Keys
      ensures ClosedSoFar(gone', pc0, closed0, b0)
      ensures On(row.video, MutualRequired) && !InvitedActive(row) ==> row.username !in pc
    {
      gone' := gone;
      // A camera that expressly invited us is skipped.
      if !(On(row.video, Active) && row.invited) && On(row.video, MutualRequired) && row.username in pc {
        var x := row.username;
        assert x in MutualCams();
        ghost var k0, b1, pc1, closed1 := Keepers(), Book(), pc, closed;
        ClosePeerLoggedOff(x);  // closeVideo(x) with no role
        KeysMinus(b1.streams, x);
        assert Keepers() <= k0;
        SweptSinceSnoc(gone, x, k0, Keepers(), pc0, closed0, pc1, closed1);
        ClosedUsersSnoc(gone, x, MutualCams(), pc0, pc1, pc);
        ForgetOne(b1, x);
        ForgetSnoc(b0, gone, x);
        gone' := gone + [x];
      }
    }

    /** A camera on our screen that our explicit camera must not watch. */
    predicate TheyAreNonExplicitCam(u: string) reads this
      requires u in whoMap
    {
      On(whoMap[u].video, Active) && On(whoMap[u].video, NonExplicit)
    }

    /** An explicit camera on our screen that our non-explicit preference refuses. */
    predicate TheyAreExplicitCam(u: string) reads this
      requires u in whoMap
    {
      On(whoMap[u].video, Active) && On(whoMap[u].video, NSFW)
    }

    /** The camera of `u` clashes with the pass that checks for non-explicit cameras (`nsfwPass`) or explicit ones. */
    predicate ClashesIn(u: string, nsfwPass: bool) reads this
      requires u in whoMap
    {
      if nsfwPass then TheyAreNonExplicitCam(u) else TheyAreExplicitCam(u)
    }

    /** Our active camera's settings refuse the camera of `u`. */
    predicate Clashes(u: string) reads this
      requires u in whoMap
    {
      (webcam.nsfw && TheyAreNonExplicitCam(u)) || (webcam.nonExplicit && TheyAreExplicitCam(u))
    }

    /**
     * unWatchNonExplicitVideo: with our camera active, close every camera on our
     * screen whose explicit preference clashes with ours. Reading the video flags
     * of a user on our screen who is missing from the Who List throws, which ends
     * the call part-way (`threw`).
     */
    method UnWatchNonExplicitVideo() returns (threw: bool, ghost order: seq<string>)
      requires Valid()
      modifies this`frozenStreamDetected, this`frozenStreamInterval, this`streams, this`muted,
               this`poppedOut, this`pc, this`closed, this`sent, this`watching
      ensures Valid()
      ensures threw <==> webcam.active && (webcam.nsfw || webcam.nonExplicit)
                         && exists u :: u in old(streams) && u !in whoMap
      ensures !webcam.active ==>
                order == [] && pc == old(pc) && streams == old(streams) && sent == old(sent)
                && closed == old(closed) && watching == old(watching)
      ensures streams.Keys <= old(streams).Keys && pc.Keys <= old(pc).Keys
      ensures forall u :: u in old(streams) && u !in streams ==> u in whoMap && Clashes(u) && u !in pc
      ensures webcam.active && !threw ==>
                forall u :: u in old(streams) && u in whoMap ==> (u in streams <==> !Clashes(u))
      ensures RemovedInOrder(order, old(streams), streams, old(sent), sent, old(watching), watching)
    {
      order := [];
      threw := false;
      if !webcam.active {
        assert (set u | u in order) == {};
        return;
      }
      if webcam.nsfw {
        threw, order := UnWatchPass(true);
        if threw {
          return;
        }
      } else {
        assert (set u | u in order) == {};
      }
      if webcam.nonExplicit {
        ghost var s1, w1, sent1 := streams, watching, sent;
        var threw2, order2 := UnWatchPass(false);
        threw := threw2;
        if !threw {
          forall u | u in old(streams) && u in whoMap ensures u in streams <==> !Clashes(u) {
            if u !in s1 {
              assert u !in streams;
            }
          }
        }
        RemovedChain(order, order2, old(streams), s1, streams, old(sent), sent1, sent, old(watching), w1, watching);
        order := order + order2;
      }
    }

    /**
     * One of unWatchNonExplicitVideo's loops: walk the users on our screen at the
     * start and close those whose camera clashes with this pass; `order` lists
     * them in the order closed.
     */
    method UnWatchPass(nsfwPass: bool) returns (threw: bool, ghost order: seq<string>)
      requires Valid()
      modifies this`frozenStreamDetected, this`frozenStreamInterval, this`streams, this`muted,
               this`poppedOut, this`pc, this`closed, this`sent, this`watching
      ensures Valid()
      ensures threw <==> exists u :: u in old(streams) && u !in whoMap
      ensures streams.Keys <= old(streams).Keys && pc.Keys <= old(pc).Keys
      ensures forall u :: u in old(streams) && u !in streams ==> u in whoMap && ClashesIn(u, nsfwPass) && u !in pc
      ensures !threw ==> forall u :: u in old(streams) ==> u in whoMap && (u in streams <==> !ClashesIn(u, nsfwPass))
      ensures RemovedInOrder(order, old(streams), streams, old(sent), sent, old(watching), watching)
    {
      threw := false;
      order := [];
      assert (set u | u in order) == {};
      var pending := streams.Keys;
      while pending != {}
        invariant Valid()
        invariant pending <= old(streams).Keys && pending <= streams.Keys
        invariant streams.Keys <= old(streams).Keys && pc.Keys <= old(pc).Keys
        invariant forall u :: u in old(streams) && u !in pending ==> u in whoMap
        invariant forall u :: u in old(streams) && u !in streams ==> u in whoMap && ClashesIn(u, nsfwPass) && u !in pc
        invariant forall u :: u in old(streams) && u !in pending ==> (u in streams <==> !ClashesIn(u, nsfwPass))
        invariant RemovedInOrder(order, old(streams), streams, old(sent), sent, old(watching), watching)
        decreases pending
      {
        var u :| u in pending;
        if u !in whoMap {
          // `whoMap[username].video` on a missing user throws.
          threw := true;
          return;
        }
        pending := pending - {u};
        if ClashesIn(u, nsfwPass) {
          order := UnWatchOne(u, order, old(streams), old(sent), old(watching));
        }
      }
    }

    /** Close one clashing camera as logged off, extending the running record. */
    method UnWatchOne(u: string, ghost order: seq<string>, ghost s0: map<string, StreamId>,
                      ghost sent0: seq<Outgoing>, ghost w0: set<string>) returns (ghost order': seq<string>)
      requires Valid() && u in streams && streams.Keys <= s0.Keys
      requires RemovedInOrder(order, s0, streams, sent0, sent, w0, watching)
      modifies this`frozenStreamDetected, this`frozenStreamInterval, this`streams, this`muted,
               this`poppedOut, this`pc, this`closed, this`sent, this`watching
      ensures Valid() && streams == old(streams) - {u} && u !in pc && pc.Keys <= old(pc).Keys
      ensures RemovedInOrder(order', s0, streams, sent0, sent, w0, watching)
    {
      RemovedSnoc(order, u, s0, streams, sent0, sent, w0, watching);
      ClosePeerLoggedOff(u);  // closeVideo(u) with no role
      order' := order + [u];
    }
  }
}
