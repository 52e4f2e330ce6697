/**
 * The IP ban lists behind the chat's admin pages (pkg/pages.go). The first
 * list holds one "Nick: <nick> | IP: <ip>" line per ban, the second one
 * bare IP per line; an address is banned only when both lists have it. A
 * file is its text (None when it cannot be read), cut into lines at every
 * "\n" as Go's strings.Split does.
 */
module Pages {
  import opened Common

  /** Go's strings.Split(s, "\n"): the pieces between line breaks, never an empty list. */
  function Split(s: string): (r: seq<string>)
    ensures |r| >= 1
    decreases |s|
  {
    if |s| == 0 then [""]
    else
      var rest := Split(s[1..]);
      if s[0] == '\n' then [""] + rest
      else [[s[0]] + rest[0]] + rest[1..]
  }

  /** No piece holds a break. */
  lemma {:induction false} SplitPieces(s: string)
    ensures forall i :: 0 <= i < |Split(s)| ==> '\n' !in Split(s)[i]
    decreases |s|
  {
    if |s| > 0 {
      SplitPieces(s[1..]);
      var rest := Split(s[1..]);
      if s[0] != '\n' {
        assert '\n' !in [s[0]] + rest[0];
      }
    }
  }

  /** Joining the pieces back with "\n" gives the text: no character is lost by splitting. */
  lemma {:induction false} JoinSplit(s: string)
    ensures Join(Split(s), "\n") == s
    decreases |s|
  {
    if |s| > 0 {
      var rest := Split(s[1..]);
      JoinSplit(s[1..]);
      if s[0] == '\n' {
        assert ([""] + rest)[1..] == rest;
      } else if |rest| > 1 {
        var r := [[s[0]] + rest[0]] + rest[1..];
        assert r[1..] == rest[1..];
        assert s == [s[0]] + s[1..];
      } else {
        assert s == [s[0]] + s[1..];
      }
    }
  }

  /**
   * Appending a line `x` and a break to a text completes the text's last
   * piece with `x`; what follows is split on its own.
   */
  lemma {:induction false} SplitAppend(s: string, x: string, t: string)
    requires '\n' !in x
    ensures var l := Split(s);
            Split(s + x + "\n" + t) == l[..|l| - 1] + [l[|l| - 1] + x] + Split(t)
    decreases |s|
  {
    var whole := s + x + "\n" + t;
    if |s| == 0 {
      SplitLine(x, t);
      assert whole == x + "\n" + t;
      assert Split(s) == [""] && "" + x == x;
    } else {
      SplitAppend(s[1..], x, t);
      assert whole[1..] == s[1..] + x + "\n" + t;
      var l' := Split(s[1..]);
      var r := Split(whole[1..]);
      assert whole[0] == s[0];
      if s[0] == '\n' {
        BreakFirst(l', x, Split(t));
      } else if |l'| == 1 {
        assert Split(whole) == [[s[0]] + r[0]] + r[1..];
        assert Split(s) == [[s[0]] + l'[0]] + l'[1..];
        SingleFirst(s[0], l', x, Split(t));
      } else {
        assert Split(whole) == [[s[0]] + r[0]] + r[1..];
        assert Split(s) == [[s[0]] + l'[0]] + l'[1..];
        MergeFirst(s[0], l', x, Split(t));
      }
    }
  }

  /** Sequence bookkeeping for SplitAppend: a text of one piece grows that piece. */
  lemma SingleFirst(c: char, l': seq<string>, x: string, rest: seq<string>)
    requires |l'| == 1
    ensures var r := l'[..|l'| - 1] + [l'[|l'| - 1] + x] + rest;
            var l := [[c] + l'[0]] + l'[1..];
            [[c] + r[0]] + r[1..] == l[..|l| - 1] + [l[|l| - 1] + x] + rest
  {
    var r := l'[..|l'| - 1] + [l'[|l'| - 1] + x] + rest;
    assert r[0] == l'[0] + x && r[1..] == rest;
    assert [c] + (l'[0] + x) == ([c] + l'[0]) + x;
  }

  /** Sequence bookkeeping for SplitAppend: an empty first piece stays in front. */
  lemma BreakFirst(l': seq<string>, x: string, rest: seq<string>)
    requires |l'| >= 1
    ensures var l := [""] + l';
            [""] + (l'[..|l'| - 1] + [l'[|l'| - 1] + x] + rest) == l[..|l| - 1] + [l[|l| - 1] + x] + rest
  {
    var l := [""] + l';
    assert l[..|l| - 1] == [""] + l'[..|l'| - 1];
  }

  /** Sequence bookkeeping for SplitAppend: prefixing the first piece commutes with completing the last. */
  lemma MergeFirst(c: char, l': seq<string>, x: string, rest: seq<string>)
    requires |l'| > 1
    ensures var r := l'[..|l'| - 1] + [l'[|l'| - 1] + x] + rest;
            var l := [[c] + l'[0]] + l'[1..];
            [[c] + r[0]] + r[1..] == l[..|l| - 1] + [l[|l| - 1] + x] + rest
  {
    var r := l'[..|l'| - 1] + [l'[|l'| - 1] + x] + rest;
    var l := [[c] + l'[0]] + l'[1..];
    var left := [[c] + r[0]] + r[1..];
    var right := l[..|l| - 1] + [l[|l| - 1] + x] + rest;
    assert |left| == |right|;
    forall k | 0 <= k < |left| ensures left[k] == right[k] {
      if k == 0 {
      } else if k < |l'| - 1 {
        assert left[k] == l'[k];
      } else if k == |l'| - 1 {
      } else {
        assert left[k] == rest[k - |l'|];
      }
    }
  }

  /** A line without a break followed by a break and more text is the first piece. */
  lemma {:induction false} SplitLine(x: string, t: string)
    requires '\n' !in x
    ensures Split(x + "\n" + t) == [x] + Split(t)
    decreases |x|
  {
    var whole := x + "\n" + t;
    if |x| == 0 {
      assert whole == "\n" + t;
      assert whole[1..] == t;
    } else {
      assert whole[1..] == x[1..] + "\n" + t;
      SplitLine(x[1..], t);
      assert x == [x[0]] + x[1..];
    }
  }

  /** A text without a break is one piece. */
  lemma {:induction false} SplitNoBreak(x: string)
    requires '\n' !in x
    ensures Split(x) == [x]
    decreases |x|
  {
    if |x| > 0 {
      SplitNoBreak(x[1..]);
      assert x == [x[0]] + x[1..];
    }
  }

  /** Splitting lines joined with "\n" gives the lines back. */
  lemma {:induction false} SplitJoin(lines: seq<string>)
    requires |lines| >= 1 && forall i :: 0 <= i < |lines| ==> '\n' !in lines[i]
    ensures Split(Join(lines, "\n")) == lines
  {
    if |lines| == 1 {
      SplitNoBreak(lines[0]);
    } else {
      SplitJoin(lines[1..]);
      SplitLine(lines[0], Join(lines[1..], "\n"));
    }
  }

  /** A text that is empty or ends with a break has an empty last piece. */
  lemma EndsWithEmptyPiece(s: string)
    requires s == "" || s[|s| - 1] == '\n'
    ensures Split(s)[|Split(s)| - 1] == ""
  {
    if s != "" {
      var p := s[..|s| - 1];
      SplitAppend(p, "", "");
      assert s == p + "" + "\n" + "";
    }
  }

  /** The line AddBanAPI appends to the first list. */
  function BanLine(nick: string, ip: string): string {
    "Nick: " + nick + " | " + IPField(ip) + "\n"
  }

  /** The text the first list is searched for. */
  function IPField(ip: string): string {
    "IP: " + ip
  }

  /**
   * AddBanAPI: the line to append, or the error for an empty address or
   * nick.
   */
  function AddBan(ip: string, nick: string): (r: Result<string>)
    ensures r.Err? <==> ip == "" || nick == ""
    ensures r.Err? ==> r.error == "IP o nick vacío"
    ensures r.Ok? ==> r.value == BanLine(nick, ip)
  {
    if ip == "" || nick == "" then Err("IP o nick vacío") else Ok(BanLine(nick, ip))
  }

  /** AddBanAPI2: the line to append to the second list, or the error for an empty address. */
  function AddBan2(ip: string): (r: Result<string>)
    ensures r.Err? <==> ip == ""
    ensures r.Err? ==> r.error == "IP vacía"
    ensures r.Ok? ==> r.value == ip + "\n"
  {
    if ip == "" then Err("IP vacía") else Ok(ip + "\n")
  }

  /** Some line of the first list contains "IP: <ip>" (a longer address with the same start matches too). */
  predicate InFirstList(lines: seq<string>, ip: string) {
    exists i :: 0 <= i < |lines| && Contains(lines[i], IPField(ip))
  }

  /** Some line of the second list is the address once white space is trimmed. */
  predicate InSecondList(lines: seq<string>, ip: string) {
    exists i :: 0 <= i < |lines| && TrimSpace(lines[i]) == ip
  }

  /** An address is banned when both files are readable and both lists have it. */
  predicate Banned(datos: Option<string>, datos2: Option<string>, ip: string) {
    && datos.Some? && InFirstList(Split(datos.value), ip)
    && datos2.Some? && InSecondList(Split(datos2.value), ip)
  }

  /** isIPBanned: scan the first list, then the second, each stopping at its first match. */
  method IsIPBanned(datos: Option<string>, datos2: Option<string>, ip: string) returns (banned: bool)
    ensures banned <==> Banned(datos, datos2, ip)
  {
    var foundInDatos := false;
    var foundInDatos2 := false;
    if datos.Some? {
      var lines := Split(datos.value);
      var i := 0;
      while i < |lines|
        invariant 0 <= i <= |lines|
        invariant !foundInDatos ==> forall j :: 0 <= j < i ==> !Contains(lines[j], "IP: " + ip)
        invariant foundInDatos ==> InFirstList(lines, ip)
      {
        if Contains(lines[i], "IP: " + ip) {
          foundInDatos := true;
          break;
        }
        i := i + 1;
      }
    }
    if datos2.Some? {
      var lines := Split(datos2.value);
      var i := 0;
      while i < |lines|
        invariant 0 <= i <= |lines|
        invariant !foundInDatos2 ==> forall j :: 0 <= j < i ==> TrimSpace(lines[j]) != ip
        invariant foundInDatos2 ==> InSecondList(lines, ip)
      {
        if TrimSpace(lines[i]) == ip {
          foundInDatos2 := true;
          break;
        }
        i := i + 1;
      }
    }
    return foundInDatos && foundInDatos2;
  }

  /**
   * A ban line appended by AddBanAPI to a file that ended with a line break
   * (or was empty) puts the address in the first list, provided the nick
   * and the address hold no break.
   */
  lemma FirstListAfterBan(datos: string, nick: string, ip: string)
    requires datos == "" || datos[|datos| - 1] == '\n'
    requires '\n' !in nick && '\n' !in ip
    ensures InFirstList(Split(datos + BanLine(nick, ip)), ip)
  {
    var head := "Nick: " + nick + " | ";
    var line := head + IPField(ip);
    NoBreakJoined(nick, ip);
    assert datos + BanLine(nick, ip) == datos + line + "\n";
    var k := AppendedLine(datos, line);
    ContainsConcat(head, IPField(ip), "");
    assert line == head + IPField(ip) + "";
  }

  /** A line appended with its break to a text that ended with a break is one of its pieces. */
  lemma AppendedLine(datos: string, line: string) returns (k: nat)
    requires datos == "" || datos[|datos| - 1] == '\n'
    requires '\n' !in line
    ensures k < |Split(datos + line + "\n")| && Split(datos + line + "\n")[k] == line
  {
    EndsWithEmptyPiece(datos);
    SplitAppend(datos, line, "");
    assert datos + line + "\n" == datos + line + "\n" + "";
    k := |Split(datos)| - 1;
  }

  /** The ban line holds no break when the nick and the address hold none. */
  lemma NoBreakJoined(nick: string, ip: string)
    requires '\n' !in nick && '\n' !in ip
    ensures '\n' !in "Nick: " + nick + " | " + IPField(ip)
  {
    assert '\n' !in "Nick: " && '\n' !in " | " && '\n' !in "IP: ";
  }

  /**
   * An address appended by AddBanAPI2 to a file that ended with a line break
   * (or was empty) is in the second list, provided it holds no break and
   * no surrounding white space.
   */
  lemma SecondListAfterBan(datos2: string, ip: string)
    requires datos2 == "" || datos2[|datos2| - 1] == '\n'
    requires '\n' !in ip && TrimSpace(ip) == ip
    ensures InSecondList(Split(datos2 + ip + "\n"), ip)
  {
    var k := AppendedLine(datos2, ip);
  }

  /** A needle found in a text has each of its prefixes found there too. */
  lemma {:induction false} ContainsPrefix(s: string, a: string, b: string)
    requires Contains(s, a + b)
    ensures Contains(s, a)
    decreases |s|
  {
    if !IsPrefix(a + b, s) {
      ContainsPrefix(s[1..], a, b);
    } else {
      assert s[..|a|] == (a + b)[..|a|];
    }
  }

  /**
   * The first list matches by substring: a ban of a longer address (such as
   * 1.2.3.45) also matches every address it starts with (such as 1.2.3.4).
   */
  lemma FirstListPrefixMatch(lines: seq<string>, ip: string, more: string)
    requires InFirstList(lines, ip + more)
    ensures InFirstList(lines, ip)
  {
    var i :| 0 <= i < |lines| && Contains(lines[i], IPField(ip + more));
    assert IPField(ip + more) == IPField(ip) + more;
    ContainsPrefix(lines[i], IPField(ip), more);
  }

  /** The lines UnbanAPI keeps: those that are not the address once trimmed, in order. */
  function Unbanned(lines: seq<string>, ip: string): (r: seq<string>)
    ensures |r| <= |lines|
  {
    if |lines| == 0 then []
    else
      var rest := Unbanned(lines[..|lines| - 1], ip);
      var last := lines[|lines| - 1];
      if TrimSpace(last) != ip then rest + [last] else rest
  }

  /** A line is kept exactly when it is in the list and is not the address. */
  lemma {:induction false} UnbannedMembers(lines: seq<string>, ip: string, x: string)
    ensures x in Unbanned(lines, ip) <==> x in lines && TrimSpace(x) != ip
  {
    if |lines| > 0 {
      var prefix := lines[..|lines| - 1];
      UnbannedMembers(prefix, ip, x);
      assert lines == prefix + [lines[|lines| - 1]];
    }
  }

  /** Lines without breaks stay without breaks. */
  lemma {:induction false} UnbannedNoBreak(lines: seq<string>, ip: string)
    requires forall i :: 0 <= i < |lines| ==> '\n' !in lines[i]
    ensures forall i :: 0 <= i < |Unbanned(lines, ip)| ==> '\n' !in Unbanned(lines, ip)[i]
  {
    if |lines| > 0 {
      var prefix := lines[..|lines| - 1];
      assert forall i :: 0 <= i < |prefix| ==> prefix[i] == lines[i];
      UnbannedNoBreak(prefix, ip);
    }
  }

  /** A list without the address loses nothing. */
  lemma {:induction false} UnbannedKeepsAll(lines: seq<string>, ip: string)
    requires forall i :: 0 <= i < |lines| ==> TrimSpace(lines[i]) != ip
    ensures Unbanned(lines, ip) == lines
  {
    if |lines| > 0 {
      var prefix := lines[..|lines| - 1];
      assert forall i :: 0 <= i < |prefix| ==> prefix[i] == lines[i];
      UnbannedKeepsAll(prefix, ip);
    }
  }

  /**
   * UnbanAPI: trim the address; refuse an empty one; otherwise rewrite the
   * second list without the lines that are the address. `written` is the
   * text written back, `r` the response or the error.
   */
  method UnbanAPI(form: string, data: Result<string>, writeErr: Option<string>)
    returns (r: Result<string>, written: Option<string>)
    ensures TrimSpace(form) == "" ==> r == Err("IP vacía") && written == None
    ensures TrimSpace(form) != "" && data.Err? ==>
              r == Err("Error leyendo datos2.txt: " + data.error) && written == None
    ensures TrimSpace(form) != "" && data.Ok? ==>
              written == Some(Join(Unbanned(Split(data.value), TrimSpace(form)), "\n"))
    ensures TrimSpace(form) != "" && data.Ok? ==>
              r == if writeErr.Some? then Err("Error escribiendo datos2.txt: " + writeErr.value)
                   else Ok("IP " + TrimSpace(form) + " eliminada de la lista de baneos.")
  {
    var ip := TrimSpace(form);
    if ip == "" {
      return Err("IP vacía"), None;
    }
    if data.Err? {
      return Err("Error leyendo datos2.txt: " + data.error), None;
    }
    var kept := KeepLines(Split(data.value), ip);
    written := Some(Join(kept, "\n"));
    if writeErr.Some? {
      return Err("Error escribiendo datos2.txt: " + writeErr.value), written;
    }
    return Ok("IP " + ip + " eliminada de la lista de baneos."), written;
  }

  /** UnbanAPI's loop: the lines that are not the address once trimmed. */
  method KeepLines(lines: seq<string>, ip: string) returns (kept: seq<string>)
    ensures kept == Unbanned(lines, ip)
  {
    kept := [];
    for i := 0 to |lines|
      invariant kept == Unbanned(lines[..i], ip)
    {
      assert lines[..i + 1][..i] == lines[..i];
      if TrimSpace(lines[i]) != ip {
        kept := kept + [lines[i]];
      }
    }
    assert lines[..|lines|] == lines;
  }

  /** After an unban the address is no longer in the second list, so it is no longer banned. */
  lemma UnbanRemoves(data: string, ip: string)
    requires ip != ""
    ensures !InSecondList(Split(Join(Unbanned(Split(data), ip), "\n")), ip)
  {
    var lines := Split(data);
    var kept := Unbanned(lines, ip);
    if |kept| == 0 {
      assert Split("") == [""];
      assert TrimSpace("") == "";
    } else {
      SplitPieces(data);
      UnbannedNoBreak(lines, ip);
      SplitJoin(kept);
      forall i | 0 <= i < |kept| ensures TrimSpace(kept[i]) != ip {
        UnbannedMembers(lines, ip, kept[i]);
      }
    }
  }

  /** An unban keeps every other line of the second list. */
  lemma UnbanKeepsOthers(data: string, ip: string, other: string)
    requires TrimSpace(other) != ip && InSecondList(Split(data), other)
    ensures InSecondList(Split(Join(Unbanned(Split(data), ip), "\n")), other)
  {
    var lines := Split(data);
    var i :| 0 <= i < |lines| && TrimSpace(lines[i]) == other;
    TrimSpaceIdempotent(lines[i]);
    UnbanKeepsLine(data, ip, lines[i]);
    InSecondListHas(Split(Join(Unbanned(lines, ip), "\n")), lines[i], other);
  }

  /** A line whose trimmed text is not the address survives the unban's rewrite of the file. */
  lemma UnbanKeepsLine(data: string, ip: string, x: string)
    requires x in Split(data) && TrimSpace(x) != ip
    ensures x in Split(Join(Unbanned(Split(data), ip), "\n"))
  {
    var lines := Split(data);
    var kept := Unbanned(lines, ip);
    UnbannedMembers(lines, ip, x);
    assert |kept| >= 1;
    SplitPieces(data);
    UnbannedNoBreak(lines, ip);
    SplitJoin(kept);
  }

  lemma InSecondListHas(lines: seq<string>, x: string, ip: string)
    requires x in lines && TrimSpace(x) == ip
    ensures InSecondList(lines, ip)
  {
  }
}
