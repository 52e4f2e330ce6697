/**
 * The direct-message history (pkg/models/direct_messages.go): channel IDs,
 * the guards of LogMessage and TakebackMessage, the rows PaginateDirectMessages
 * and ClearMessages select, and the paging arithmetic of PaginateUsernames.
 *
 * The SQLite table is a sequence of rows kept in message_id order, the order
 * its INTEGER PRIMARY KEY stores them in; a missing database is None. SQL
 * errors other than the ones named here are not modelled.
 */
module DirectMessages {
  import opened Common

  const DirectMessagePerPage := 20
  const MaxInt64 := 9223372036854775807

  const ErrNotInitialized := "database is not initialized"
  const ErrNoMessageID := "message did not have a MessageID"
  const ErrNotOwned := "no such message ID found as owned by that user"
  /** SQLite's refusal of a second row with the same primary key. */
  const ErrDuplicateID := "UNIQUE constraint failed: direct_messages.message_id"

  datatype DirectMessage = DirectMessage(messageID: int, channelID: string, username: string, message: string, timestamp: int)

  /** Rows in strictly increasing message_id order. */
  predicate Ordered(t: seq<DirectMessage>) {
    forall i, j :: 0 <= i < j < |t| ==> t[i].messageID < t[j].messageID
  }

  /** The direct_messages table; the lemmas about order assume it is Ordered. */
  type Table = seq<DirectMessage>

  /** A row in the rest of an ordered table has a greater ID than the first. */
  lemma InTailAbove(t: Table, x: DirectMessage)
    requires Ordered(t) && |t| > 0 && x in t[1..]
    ensures x.messageID > t[0].messageID
  {
    var k :| 0 <= k < |t[1..]| && t[1..][k] == x;
    assert t[k + 1] == x;
  }

  lemma OrderedTail(t: Table)
    requires Ordered(t) && |t| > 0
    ensures Ordered(t[1..])
  {
    forall i, j | 0 <= i < j < |t| - 1
      ensures t[1..][i].messageID < t[1..][j].messageID
    {
      assert t[1..][i] == t[i + 1] && t[1..][j] == t[j + 1];
    }
  }

  lemma OrderedCons(x: DirectMessage, s: Table)
    requires Ordered(s) && forall i :: 0 <= i < |s| ==> x.messageID < s[i].messageID
    ensures Ordered([x] + s)
  {
  }

  /* ---------- Channel IDs ---------- */

  /** CreateChannelID: the two names sorted and written "@first:@second". */
  function CreateChannelID(a: string, b: string): (r: string)
    ensures r == "@" + a + ":@" + b || r == "@" + b + ":@" + a
    ensures LessEq(a, b) ==> r == "@" + a + ":@" + b
  {
    if LessEq(a, b) then "@" + a + ":@" + b else "@" + b + ":@" + a
  }

  /** Both participants get the same channel, whoever sends. */
  lemma ChannelIDSymmetric(a: string, b: string)
    ensures CreateChannelID(a, b) == CreateChannelID(b, a)
  {
    if LessEq(a, b) && LessEq(b, a) {
      LessEqAntisymmetric(a, b);
    } else {
      LessEqTotal(a, b);
    }
  }

  predicate NoColon(s: string) {
    forall i :: 0 <= i < |s| ==> s[i] != ':'
  }

  /** The index of the first ':' in `s`, or |s| when there is none. */
  function ColonIndex(s: string): (k: nat)
    ensures k <= |s| && (k < |s| ==> s[k] == ':')
    ensures forall i :: 0 <= i < k ==> s[i] != ':'
  {
    if |s| == 0 || s[0] == ':' then 0 else 1 + ColonIndex(s[1..])
  }

  /** A channel ID "@x:@y" read back as (x, y), splitting at its first colon. */
  function SplitChannelID(id: string): (r: Option<(string, string)>)
    ensures r.Some? ==> id == "@" + r.value.0 + ":@" + r.value.1 && NoColon(r.value.0)
  {
    if |id| == 0 || id[0] != '@' then None
    else
      var k := 1 + ColonIndex(id[1..]);
      if k + 1 < |id| && id[k + 1] == '@' then
        assert id == id[..1] + id[1..k] + id[k..k + 2] + id[k + 2..];
        Some((id[1..k], id[k + 2..]))
      else None
  }

  /** For names without a colon, the channel ID gives back both names, the lesser first. */
  lemma ChannelIDRoundTrip(a: string, b: string)
    requires NoColon(a) && NoColon(b)
    ensures SplitChannelID(CreateChannelID(a, b)) == Some(if LessEq(a, b) then (a, b) else (b, a))
  {
    if LessEq(a, b) {
      SplitJoined(a, b);
    } else {
      SplitJoined(b, a);
    }
  }

  lemma SplitJoined(x: string, y: string)
    requires NoColon(x)
    ensures SplitChannelID("@" + x + ":@" + y) == Some((x, y))
  {
    var id := "@" + x + ":@" + y;
    var rest := id[1..];
    assert rest == x + ":@" + y;
    assert forall i :: 0 <= i < |x| ==> rest[i] == x[i];
    assert rest[|x|] == ':';
    assert ColonIndex(rest) == |x|;
    assert id[|x| + 2] == '@';
    assert id[1..|x| + 1] == x;
    assert id[|x| + 3..] == y;
  }

  /** Distinct pairs of colon-free names never share a channel. */
  lemma ChannelIDInjective(a: string, b: string, c: string, d: string)
    requires NoColon(a) && NoColon(b) && NoColon(c) && NoColon(d)
    requires CreateChannelID(a, b) == CreateChannelID(c, d)
    ensures (a == c && b == d) || (a == d && b == c)
  {
    ChannelIDRoundTrip(a, b);
    ChannelIDRoundTrip(c, d);
  }

  /** With a colon in a name, two different pairs of users share one channel ID. */
  lemma ChannelIDCollidesOnColons()
    ensures CreateChannelID("a:@b", "c") == CreateChannelID("a", "b:@c") == "@a:@b:@c"
  {
    assert LessEq("a:@b", "c");
    assert LessEq("a", "b:@c");
  }

  /* ---------- Selecting rows ---------- */

  /** The rows satisfying `keep`, in table order. */
  function Where(t: Table, keep: DirectMessage -> bool): (r: Table)
    ensures forall i :: 0 <= i < |r| ==> keep(r[i]) && r[i] in t
    ensures forall x :: x in t && keep(x) ==> x in r
    ensures |r| <= |t|
  {
    if |t| == 0 then []
    else
      var rest := Where(t[1..], keep);
      if keep(t[0]) then [t[0]] + rest else rest
  }

  /** A selection from an ordered table is ordered. */
  lemma {:induction false} WhereOrdered(t: Table, keep: DirectMessage -> bool)
    requires Ordered(t)
    ensures Ordered(Where(t, keep))
  {
    if |t| > 0 {
      WhereOrdered(t[1..], keep);
      var rest := Where(t[1..], keep);
      forall j | 0 <= j < |rest|
        ensures t[0].messageID < rest[j].messageID
      {
        InTailAbove(t, rest[j]);
      }
      OrderedCons(t[0], rest);
    }
  }

  predicate HasID(t: Table, messageID: int) {
    exists i :: 0 <= i < |t| && t[i].messageID == messageID
  }

  /* ---------- LogMessage ---------- */

  /** `row` put in its place by message_id. */
  function Insert(t: Table, row: DirectMessage): (r: Table)
    ensures multiset(r) == multiset(t) + multiset{row}
    ensures forall i :: 0 <= i < |r| ==> r[i] == row || r[i] in t
  {
    if |t| == 0 then [row]
    else if row.messageID < t[0].messageID then [row] + t
    else
      assert t == [t[0]] + t[1..];
      [t[0]] + Insert(t[1..], row)
  }

  /** Inserting a new message ID into an ordered table keeps it ordered. */
  lemma {:induction false} InsertOrdered(t: Table, row: DirectMessage)
    requires Ordered(t) && !HasID(t, row.messageID)
    ensures Ordered(Insert(t, row))
  {
    if |t| > 0 {
      if row.messageID < t[0].messageID {
        forall j | 0 <= j < |t|
          ensures row.messageID < t[j].messageID
        {
          if j > 0 {
            assert t[0].messageID < t[j].messageID;
          }
        }
        OrderedCons(row, t);
      } else {
        assert t[0].messageID != row.messageID;
        assert !HasID(t[1..], row.messageID);
        InsertOrdered(t[1..], row);
        var rest := Insert(t[1..], row);
        forall j | 0 <= j < |rest|
          ensures t[0].messageID < rest[j].messageID
        {
          if rest[j] != row {
            InTailAbove(t, rest[j]);
          }
        }
        OrderedCons(t[0], rest);
      }
    }
  }

  /**
   * LogMessage: no database and a zero message ID are refused before any
   * insert; a message ID already stored is refused by the primary key.
   */
  function LogMessage(db: Option<Table>, from: string, to: string, messageID: int, message: string, now: int)
    : (r: Result<Table>)
    ensures db.None? ==> r == Err(ErrNotInitialized)
    ensures db.Some? && messageID == 0 ==> r == Err(ErrNoMessageID)
    ensures db.Some? && messageID != 0 && HasID(db.value, messageID) ==> r == Err(ErrDuplicateID)
    ensures r.Ok? <==> db.Some? && messageID != 0 && !HasID(db.value, messageID)
    ensures r.Ok? ==>
              multiset(r.value) == multiset(db.value)
                                   + multiset{DirectMessage(messageID, CreateChannelID(from, to), from, message, now)}
    ensures r.Ok? && Ordered(db.value) ==> Ordered(r.value)
  {
    if db.None? then Err(ErrNotInitialized)
    else if messageID == 0 then Err(ErrNoMessageID)
    else if HasID(db.value, messageID) then Err(ErrDuplicateID)
    else
      var row := DirectMessage(messageID, CreateChannelID(from, to), from, message, now);
      if Ordered(db.value) then InsertOrdered(db.value, row); Ok(Insert(db.value, row))
      else Ok(Insert(db.value, row))
  }

  /** A logged message is stored under the same channel whichever side it is logged for. */
  lemma LoggedUnderSharedChannel(t: Table, from: string, to: string, messageID: int, message: string, now: int)
    requires messageID != 0 && !HasID(t, messageID)
    ensures var r := LogMessage(Some(t), from, to, messageID, message, now);
            r.Ok? && DirectMessage(messageID, CreateChannelID(to, from), from, message, now) in r.value
  {
    ChannelIDSymmetric(from, to);
    var r := LogMessage(Some(t), from, to, messageID, message, now);
    assert DirectMessage(messageID, CreateChannelID(from, to), from, message, now) in multiset(r.value);
  }

  /* ---------- TakebackMessage ---------- */

  /** A row written by `username` with this message ID exists. */
  predicate Owns(t: Table, username: string, messageID: int) {
    exists i :: 0 <= i < |t| && t[i].username == username && t[i].messageID == messageID
  }

  /**
   * TakebackMessage: a non-admin must own a stored row with that ID; then
   * every row with that ID is deleted and the result says so.
   */
  function TakebackMessage(db: Option<Table>, username: string, messageID: int, isAdmin: bool)
    : (r: Result<(bool, Table)>)
    ensures db.None? ==> r == Err(ErrNotInitialized)
    ensures db.Some? ==> (r.Ok? <==> isAdmin || Owns(db.value, username, messageID))
    ensures r.Ok? ==> r.value.0
    ensures r.Ok? ==> forall i :: 0 <= i < |r.value.1| ==> r.value.1[i].messageID != messageID
    ensures r.Ok? ==> forall x :: x in db.value && x.messageID != messageID ==> x in r.value.1
    ensures r.Ok? && Ordered(db.value) ==> Ordered(r.value.1)
  {
    if db.None? then Err(ErrNotInitialized)
    else if !isAdmin && !Owns(db.value, username, messageID) then Err(ErrNotOwned)
    else
      var keep := (x: DirectMessage) => x.messageID != messageID;
      if Ordered(db.value) then WhereOrdered(db.value, keep); Ok((true, Where(db.value, keep)))
      else Ok((true, Where(db.value, keep)))
  }

  /* ---------- PaginateDirectMessages ---------- */

  function Reverse<T>(s: seq<T>): (r: seq<T>)
    ensures |r| == |s| && forall i :: 0 <= i < |s| ==> r[i] == s[|s| - 1 - i]
  {
    if |s| == 0 then [] else Reverse(s[1..]) + [s[0]]
  }

  /** One page of a conversation, newest first, and how many older messages remain. */
  datatype Page = Page(rows: seq<DirectMessage>, remaining: nat)

  /** The effective upper bound: a zero `beforeID` means "from the newest". */
  function Before(beforeID: int): int {
    if beforeID == 0 then MaxInt64 else beforeID
  }

  /** The channel's rows below message ID `below`, oldest first. */
  function ChannelBelow(t: Table, channelID: string, below: int): (r: Table)
    ensures forall i :: 0 <= i < |r| ==> r[i].channelID == channelID && r[i].messageID < below && r[i] in t
    ensures forall x :: x in t && x.channelID == channelID && x.messageID < below ==> x in r
  {
    if |t| == 0 then []
    else
      assert t == [t[0]] + t[1..];
      if t[0].channelID == channelID && t[0].messageID < below then [t[0]] + ChannelBelow(t[1..], channelID, below)
      else ChannelBelow(t[1..], channelID, below)
  }

  lemma {:induction false} ChannelBelowOrdered(t: Table, channelID: string, below: int)
    requires Ordered(t)
    ensures Ordered(ChannelBelow(t, channelID, below))
  {
    if |t| > 0 {
      ChannelBelowOrdered(t[1..], channelID, below);
      var rest := ChannelBelow(t[1..], channelID, below);
      forall j | 0 <= j < |rest|
        ensures t[0].messageID < rest[j].messageID
      {
        InTailAbove(t, rest[j]);
      }
      OrderedCons(t[0], rest);
    }
  }

  /** The newest 20 rows of the channel below `before`, newest first. */
  function NewestRows(t: Table, channelID: string, before: int): (r: Table)
    ensures |r| <= DirectMessagePerPage
  {
    Reverse(LastN(ChannelBelow(t, channelID, before), DirectMessagePerPage))
  }

  /** The ID of the last (oldest) row of a page, or 0 for an empty page. */
  function LastID(rows: Table): int {
    if |rows| == 0 then 0 else rows[|rows| - 1].messageID
  }

  /**
   * PaginateDirectMessages: the newest 20 rows of the conversation below
   * `beforeID`, newest first, and the count of the conversation's rows below
   * the last one returned (below 0 when the page is empty).
   */
  function PaginateDirectMessages(db: Option<Table>, from: string, to: string, beforeID: int): (r: Result<Page>)
    ensures db.None? <==> r == Err(ErrNotInitialized)
  {
    if db.None? then Err(ErrNotInitialized)
    else
      var channelID := CreateChannelID(from, to);
      var rows := NewestRows(db.value, channelID, Before(beforeID));
      Ok(Page(rows, |ChannelBelow(db.value, channelID, LastID(rows))|))
  }

  /** The rows of a page are the last rows below the bound, in reverse: row i of the page is row m + |page| - 1 - i. */
  lemma PageRows(t: Table, channelID: string, before: int) returns (older: Table, m: nat)
    ensures older == ChannelBelow(t, channelID, before)
    ensures var rows := NewestRows(t, channelID, before);
            m + |rows| == |older| && forall i :: 0 <= i < |rows| ==> rows[i] == older[m + |rows| - 1 - i]
  {
    older := ChannelBelow(t, channelID, before);
    m := ReversedLast(older, DirectMessagePerPage);
  }

  /** Reversing the last `n` elements: element i is element m + count - 1 - i of the original. */
  lemma ReversedLast<T>(s: seq<T>, n: nat) returns (m: nat)
    ensures var r := Reverse(LastN(s, n));
            m + |r| == |s| && forall i :: 0 <= i < |r| ==> r[i] == s[m + |r| - 1 - i]
  {
    var tail := LastN(s, n);
    m := |s| - |tail|;
    assert tail == s[m..];
  }

  /**
   * A page holds at most 20 rows of the conversation, all below the bound,
   * newest first, and they are the newest such rows: any row of the
   * conversation below the bound that is left out is older than all of them.
   */
  lemma PageIsNewest(t: Table, channelID: string, before: int)
    requires Ordered(t)
    ensures var rows := NewestRows(t, channelID, before);
            |rows| <= DirectMessagePerPage
    ensures var rows := NewestRows(t, channelID, before);
            forall i :: 0 <= i < |rows| ==> rows[i] in t && rows[i].channelID == channelID && rows[i].messageID < before
    ensures var rows := NewestRows(t, channelID, before);
            forall i, j :: 0 <= i < j < |rows| ==> rows[i].messageID > rows[j].messageID
    ensures var rows := NewestRows(t, channelID, before);
            forall x :: x in t && x.channelID == channelID && x.messageID < before && x !in rows ==>
              forall i :: 0 <= i < |rows| ==> x.messageID < rows[i].messageID
  {
    var older, m := PageRows(t, channelID, before);
    ChannelBelowOrdered(t, channelID, before);
    var rows := NewestRows(t, channelID, before);
    ReversedTailDecreasing(older, m, rows);
    ReversedTailNewest(older, m, rows);
  }

  lemma ReversedTailDecreasing(older: Table, m: nat, rows: Table)
    requires Ordered(older) && m + |rows| == |older|
    requires forall i :: 0 <= i < |rows| ==> rows[i] == older[m + |rows| - 1 - i]
    ensures forall i, j :: 0 <= i < j < |rows| ==> rows[i].messageID > rows[j].messageID
  {
    forall i, j | 0 <= i < j < |rows|
      ensures rows[i].messageID > rows[j].messageID
    {
      assert older[m + |rows| - 1 - j].messageID < older[m + |rows| - 1 - i].messageID;
    }
  }

  lemma ReversedTailNewest(older: Table, m: nat, rows: Table)
    requires Ordered(older) && m + |rows| == |older|
    requires forall i :: 0 <= i < |rows| ==> rows[i] == older[m + |rows| - 1 - i]
    ensures forall x :: x in older && x !in rows ==> forall i :: 0 <= i < |rows| ==> x.messageID < rows[i].messageID
  {
    forall k | m <= k < |older|
      ensures older[k] in rows
    {
      assert rows[m + |rows| - 1 - k] == older[k];
    }
    forall x | x in older && x !in rows
      ensures forall i :: 0 <= i < |rows| ==> x.messageID < rows[i].messageID
    {
      var k :| 0 <= k < |older| && older[k] == x;
      forall i | 0 <= i < |rows|
        ensures x.messageID < rows[i].messageID
      {
        assert older[k].messageID < older[m + |rows| - 1 - i].messageID;
      }
    }
  }

  /** Keeping the channel's rows below `below` and then those below a lower bound is one selection. */
  lemma {:induction false} ChannelBelowTwice(t: Table, channelID: string, below: int, lower: int)
    requires lower <= below
    ensures ChannelBelow(ChannelBelow(t, channelID, below), channelID, lower) == ChannelBelow(t, channelID, lower)
  {
    if |t| > 0 {
      ChannelBelowTwice(t[1..], channelID, below, lower);
      var rest := ChannelBelow(t[1..], channelID, below);
      if t[0].channelID == channelID && t[0].messageID < below {
        assert ([t[0]] + rest)[1..] == rest;
      }
    }
  }

  /** In an ordered table of one channel, the rows below the ID of row `m` are exactly the first `m` rows. */
  lemma {:induction false} BelowIsPrefix(t: Table, channelID: string, m: nat)
    requires Ordered(t) && m < |t|
    requires forall i :: 0 <= i < |t| ==> t[i].channelID == channelID
    ensures ChannelBelow(t, channelID, t[m].messageID) == t[..m]
  {
    if m == 0 {
      NothingBelowFirst(t, channelID);
    } else {
      TailOfOneChannel(t, channelID, m);
      BelowIsPrefix(t[1..], channelID, m - 1);
      BelowCons(t, channelID, t[m].messageID);
      PrefixCons(t, m);
    }
  }

  lemma PrefixCons(t: Table, m: nat)
    requires 0 < m <= |t|
    ensures t[..m] == [t[0]] + t[1..][..m - 1]
  {
  }

  lemma TailOfOneChannel(t: Table, channelID: string, m: nat)
    requires Ordered(t) && 0 < m < |t|
    requires forall i :: 0 <= i < |t| ==> t[i].channelID == channelID
    ensures Ordered(t[1..]) && t[1..][m - 1] == t[m] && t[0].messageID < t[m].messageID
    ensures t[0].channelID == channelID
    ensures forall i :: 0 <= i < |t[1..]| ==> t[1..][i].channelID == channelID
  {
    OrderedTail(t);
    forall i | 0 <= i < |t[1..]| ensures t[1..][i].channelID == channelID { assert t[1..][i] == t[i + 1]; }
  }

  lemma BelowCons(t: Table, channelID: string, below: int)
    requires |t| > 0 && t[0].channelID == channelID && t[0].messageID < below
    ensures ChannelBelow(t, channelID, below) == [t[0]] + ChannelBelow(t[1..], channelID, below)
  {
  }

  lemma {:induction false} NothingBelowFirst(t: Table, channelID: string)
    requires Ordered(t) && |t| > 0
    ensures ChannelBelow(t, channelID, t[0].messageID) == []
  {
    var lo := t[0].messageID;
    forall j | 0 <= j < |t[1..]|
      ensures t[1..][j].messageID >= lo
    {
      assert t[1..][j] == t[j + 1];
    }
    NothingBelow(t[1..], channelID, lo);
  }

  lemma {:induction false} NothingBelow(t: Table, channelID: string, lo: int)
    requires forall j :: 0 <= j < |t| ==> t[j].messageID >= lo
    ensures ChannelBelow(t, channelID, lo) == []
  {
    if |t| > 0 {
      NothingBelow(t[1..], channelID, lo);
    }
  }

  /**
   * The remaining count is what the older pages hold: with positive message
   * IDs, the page and the remaining count together cover the conversation
   * below the bound.
   */
  lemma RemainingCountsOlderRows(t: Table, from: string, to: string, beforeID: int)
    requires Ordered(t)
    requires forall i :: 0 <= i < |t| ==> t[i].messageID > 0
    ensures var p := PaginateDirectMessages(Some(t), from, to, beforeID).value;
            |p.rows| + p.remaining == |ChannelBelow(t, CreateChannelID(from, to), Before(beforeID))|
  {
    var channelID := CreateChannelID(from, to);
    var rows := NewestRows(t, channelID, Before(beforeID));
    assert PaginateDirectMessages(Some(t), from, to, beforeID).value
           == Page(rows, |ChannelBelow(t, channelID, LastID(rows))|);
    PageAndRemainder(t, channelID, Before(beforeID));
  }

  lemma PageAndRemainder(t: Table, channelID: string, before: int)
    requires Ordered(t)
    requires forall i :: 0 <= i < |t| ==> t[i].messageID > 0
    ensures var rows := NewestRows(t, channelID, before);
            |rows| + |ChannelBelow(t, channelID, LastID(rows))| == |ChannelBelow(t, channelID, before)|
  {
    var older, m := PageRows(t, channelID, before);
    var rows := NewestRows(t, channelID, before);
    if |rows| == 0 {
      NothingBelow(t, channelID, 0);
    } else {
      ChannelBelowOrdered(t, channelID, before);
      var last := LastID(rows);
      assert last == older[m].messageID;
      ChannelBelowTwice(t, channelID, before, last);
      BelowIsPrefix(older, channelID, m);
    }
  }

  /* ---------- ClearMessages ---------- */

  /** ASCII upper case folded to lower case, as SQLite's LIKE compares. */
  function Fold(c: char): char {
    if 'A' <= c <= 'Z' then (c as int + 32) as char else c
  }

  /**
   * SQLite's LIKE without an ESCAPE clause: `%` matches any run of
   * characters, `_` any one character, and other characters match
   * themselves ignoring ASCII case.
   */
  predicate Like(pattern: string, s: string)
    decreases |pattern| + |s|
  {
    if |pattern| == 0 then |s| == 0
    else if pattern[0] == '%' then Like(pattern[1..], s) || (|s| > 0 && Like(pattern, s[1..]))
    else |s| > 0 && (pattern[0] == '_' || Fold(pattern[0]) == Fold(s[0])) && Like(pattern[1..], s[1..])
  }

  /** Every string matches itself as a pattern. */
  lemma {:induction false} LikeSelf(p: string)
    ensures Like(p, p)
    decreases |p|
  {
    if |p| > 0 {
      LikeSelf(p[1..]);
      if p[0] == '%' {
        assert Like(p[1..], p[1..]);
        assert Like(p, p[1..]) by { LikeSkip(p[1..], p[1..]); }
      }
    }
  }

  /** A leading `%` may always consume nothing. */
  lemma LikeSkip(rest: string, s: string)
    requires Like(rest, s)
    ensures Like("%" + rest, s)
  {
    assert ("%" + rest)[1..] == rest;
  }

  /** A pattern ending in `%` matches any string its front matches the start of. */
  lemma {:induction false} LikePrefixPercent(p: string, s: string)
    requires IsPrefix(p, s)
    ensures Like(p + "%", s)
    decreases |p|
  {
    if |p| == 0 {
      assert p + "%" == "%";
      LikeAnything(s);
    } else {
      LikePrefixPercent(p[1..], s[1..]);
      assert (p + "%")[1..] == p[1..] + "%";
      if p[0] == '%' {
        assert Like((p + "%")[1..], s[1..]);
        LikeSkip((p + "%")[1..], s[1..]);
        assert "%" + (p + "%")[1..] == p + "%";
      }
    }
  }

  /** "%" matches everything. */
  lemma {:induction false} LikeAnything(s: string)
    ensures Like("%", s)
    decreases |s|
  {
    if |s| > 0 {
      LikeAnything(s[1..]);
    }
  }

  /** A pattern starting with `%` matches any string the rest matches the end of. */
  lemma {:induction false} LikePercentSuffix(p: string, s: string)
    requires IsSuffix(p, s)
    ensures Like("%" + p, s)
    decreases |s|
  {
    assert ("%" + p)[1..] == p;
    if |s| == |p| {
      assert s == p;
      LikeSelf(p);
    } else {
      assert s[1..][|s[1..]| - |p|..] == p;
      LikePercentSuffix(p, s[1..]);
    }
  }

  /** The rows ClearMessages selects, as written: LIKE patterns built from the raw username. */
  predicate ClearsAsWritten(row: DirectMessage, username: string) {
    Like("@" + username + ":%", row.channelID) || Like("%:@" + username, row.channelID) || row.username == username
  }

  /** The rows ClearMessages is meant to select: the user's channels, literally, or the user's own rows. */
  predicate Clears(row: DirectMessage, username: string) {
    IsPrefix("@" + username + ":", row.channelID) || IsSuffix(":@" + username, row.channelID) || row.username == username
  }

  /** The written query removes at least every row the intended one does. */
  lemma ClearsAsWrittenCovers(row: DirectMessage, username: string)
    requires Clears(row, username)
    ensures ClearsAsWritten(row, username)
  {
    if IsPrefix("@" + username + ":", row.channelID) {
      LikePrefixPercent("@" + username + ":", row.channelID);
      assert ("@" + username + ":") + "%" == "@" + username + ":%";
    } else if IsSuffix(":@" + username, row.channelID) {
      LikePercentSuffix(":@" + username, row.channelID);
      assert "%" + (":@" + username) == "%:@" + username;
    }
  }

  /**
   * ClearMessages as written: "_" in a username is a LIKE wildcard, so
   * clearing "a_c" deletes the conversation between "abc" and "zed".
   */
  lemma ClearOverreachesOnUnderscore()
    ensures var row := DirectMessage(1, CreateChannelID("abc", "zed"), "zed", "hi", 0);
            ClearsAsWritten(row, "a_c") && !Clears(row, "a_c")
  {
    assert CreateChannelID("abc", "zed") == "@abc:@zed" by { assert LessEq("abc", "zed"); }
    var row := DirectMessage(1, "@abc:@zed", "zed", "hi", 0);
    assert ClearsAsWritten(row, "a_c") by {
      UnderscoreMatches();
      assert "@" + "a_c" + ":%" == "@a_c:%";
    }
    NotLiterallyCleared(row);
  }

  lemma NotLiterallyCleared(row: DirectMessage)
    requires row.channelID == "@abc:@zed" && row.username == "zed"
    ensures !Clears(row, "a_c")
  {
    assert !IsPrefix("@a_c:", row.channelID) by {
      assert row.channelID[..5] == "@abc:";
    }
    assert !IsSuffix(":@a_c", row.channelID) by {
      assert row.channelID[4..] == ":@zed";
    }
  }

  lemma UnderscoreMatches()
    ensures Like("@a_c:%", "@abc:@zed")
  {
    LikeAnything("@zed");
    assert Like(":%", ":@zed");
    assert Like("c:%", "c:@zed");
    assert Like("_c:%", "bc:@zed");
    assert Like("a_c:%", "abc:@zed");
  }

  /**
   * For colon-free names, the intended selection is exactly the rows of the
   * user's conversations and the rows the user wrote.
   */
  lemma ClearsExactlyParticipants(row: DirectMessage, x: string, y: string, username: string)
    requires NoColon(x) && NoColon(y) && NoColon(username)
    requires row.channelID == CreateChannelID(x, y)
    ensures Clears(row, username) <==> username == x || username == y || row.username == username
  {
    var (p, q) := if LessEq(x, y) then (x, y) else (y, x);
    var id := row.channelID;
    assert id == "@" + p + ":@" + q;
    PrefixNamesFirst(p, q, username);
    SuffixNamesSecond(p, q, username);
  }

  /** The only colon of "@p:@q" is the one after p. */
  lemma OnlyColon(p: string, q: string, i: int)
    requires NoColon(p) && NoColon(q)
    requires 0 <= i < |"@" + p + ":@" + q| && ("@" + p + ":@" + q)[i] == ':'
    ensures i == |p| + 1
  {
  }

  lemma PrefixNamesFirst(p: string, q: string, u: string)
    requires NoColon(p) && NoColon(q) && NoColon(u)
    ensures IsPrefix("@" + u + ":", "@" + p + ":@" + q) <==> u == p
  {
    var id := "@" + p + ":@" + q;
    if IsPrefix("@" + u + ":", id) {
      assert id[|u| + 1] == ':';
      OnlyColon(p, q, |u| + 1);
      assert id[1..|u| + 1] == u;
    }
    if u == p {
      assert id[..|u| + 2] == "@" + u + ":";
    }
  }

  lemma SuffixNamesSecond(p: string, q: string, u: string)
    requires NoColon(p) && NoColon(q) && NoColon(u)
    ensures IsSuffix(":@" + u, "@" + p + ":@" + q) <==> u == q
  {
    var id := "@" + p + ":@" + q;
    if IsSuffix(":@" + u, id) {
      var k := |id| - |u| - 2;
      assert id[k] == ':';
      OnlyColon(p, q, k);
      assert id[k + 2..] == u;
    }
    if u == q {
      assert id[|id| - |u| - 2..] == ":@" + u;
    }
  }

  /** The outcome of ClearMessages: how many rows were counted, and the table after the delete. */
  datatype Cleared = Cleared(count: nat, table: Table)

  /** ClearMessages as written: count, then delete, the rows the LIKE query selects. */
  function ClearMessagesAsWritten(db: Option<Table>, username: string): (r: Result<Cleared>)
    ensures db.None? <==> r == Err(ErrNotInitialized)
    ensures r.Ok? ==> r.value.count + |r.value.table| == |db.value|
  {
    if db.None? then Err(ErrNotInitialized)
    else
      var gone := Where(db.value, (x: DirectMessage) => ClearsAsWritten(x, username));
      var kept := Where(db.value, (x: DirectMessage) => !ClearsAsWritten(x, username));
      WhereSplits(db.value, (x: DirectMessage) => ClearsAsWritten(x, username), (x: DirectMessage) => !ClearsAsWritten(x, username));
      Ok(Cleared(|gone|, kept))
  }

  /**
   * ClearMessages with the username matched literally: the count and the
   * delete cover the user's conversations and rows, and every other row
   * stays, in order.
   */
  function ClearMessages(db: Option<Table>, username: string): (r: Result<Cleared>)
    ensures db.None? <==> r == Err(ErrNotInitialized)
    ensures r.Ok? ==> r.value.count + |r.value.table| == |db.value|
    ensures r.Ok? ==> forall i :: 0 <= i < |r.value.table| ==> !Clears(r.value.table[i], username)
    ensures r.Ok? ==> forall x :: x in db.value && !Clears(x, username) ==> x in r.value.table
  {
    if db.None? then Err(ErrNotInitialized)
    else
      var gone := Where(db.value, (x: DirectMessage) => Clears(x, username));
      var kept := Where(db.value, (x: DirectMessage) => !Clears(x, username));
      WhereSplits(db.value, (x: DirectMessage) => Clears(x, username), (x: DirectMessage) => !Clears(x, username));
      Ok(Cleared(|gone|, kept))
  }

  /** A selection and its complement share out the table's rows. */
  lemma {:induction false} WhereSplits(t: Table, keep: DirectMessage -> bool, drop: DirectMessage -> bool)
    requires forall x :: drop(x) == !keep(x)
    ensures |Where(t, keep)| + |Where(t, drop)| == |t|
  {
    if |t| > 0 {
      WhereSplits(t[1..], keep, drop);
    }
  }

  /* ---------- PaginateUsernames ---------- */

  /** The ORDER BY clauses PaginateUsernames accepts; anything else means newest first. */
  datatype Order = UsernameAsc | UsernameDesc | TimestampAsc | TimestampDesc

  function SortOrder(sort: string): (o: Order)
    ensures sort !in ["a-z", "z-a", "oldest"] ==> o == TimestampDesc
  {
    if sort == "a-z" then UsernameAsc
    else if sort == "z-a" then UsernameDesc
    else if sort == "oldest" then TimestampAsc
    else TimestampDesc
  }

  /** The OFFSET of page `page`: (page - 1) * perPage, but never negative. */
  function PageOffset(page: int, perPage: int): (r: nat) {
    if (page - 1) * perPage < 0 then 0 else (page - 1) * perPage
  }

  /**
   * The page count: ceil(count / perPage) in floating point, at least 1. A
   * perPage of zero or less never yields more than one page (on amd64 the
   * infinite or negative quotient converts to a value below 1).
   */
  function Pages(count: nat, perPage: int): (r: int) {
    if perPage > 0 && (count + perPage - 1) / perPage >= 1 then (count + perPage - 1) / perPage else 1
  }

  /** There is always a first page; the last page holds at least one name, and no later page does. */
  lemma PagesCoverCount(count: nat, perPage: int)
    ensures Pages(count, perPage) >= 1
    ensures perPage > 0 && count > 0 ==>
              PageOffset(Pages(count, perPage), perPage) < count <= PageOffset(Pages(count, perPage) + 1, perPage)
    ensures count == 0 || perPage <= 0 ==> Pages(count, perPage) == 1
  {
    if perPage > 0 && count > 0 {
      var n := Pages(count, perPage);
      assert n == (count + perPage - 1) / perPage;
      assert n * perPage <= count + perPage - 1 < (n + 1) * perPage;
      assert (n - 1) * perPage == n * perPage - perPage;
    }
  }

  /** Successive pages start exactly perPage names apart, the first at offset 0. */
  lemma PagesAreConsecutive(page: int, perPage: nat)
    requires page >= 1
    ensures PageOffset(1, perPage) == 0
    ensures PageOffset(page + 1, perPage) == PageOffset(page, perPage) + perPage
  {
    assert page * perPage == (page - 1) * perPage + perPage;
  }
}
