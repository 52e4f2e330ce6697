/**
 * Conversation logging (pkg/logging.go): which users' direct messages and
 * which public channels are logged, the guard in front of a log write, and
 * the per-owner cache of open log files. A log file handle is modelled as
 * the name of the file it was opened on; the directory creation and the
 * open are outside the model and come in as their possible errors.
 */
module LogFiles {
  import opened Common
  import opened Config
  import opened Server

  /**
   * Whether a user's direct messages are logged, given whether their
   * session was already logging: once logging, a session stays logging
   * while logging is enabled; otherwise the configured usernames decide.
   */
  predicate LogsUser(logging: Logging, wasLogging: bool, username: string) {
    logging.enabled && (wasLogging || username in logging.usernames)
  }

  /**
   * IsLoggingUsername: false when logging is disabled or there is no
   * session; otherwise the session's sticky flag is set when its username is
   * configured, and the flag is the answer.
   */
  method IsLoggingUsername(logging: Logging, sub: Subscriber?) returns (r: bool)
    modifies if sub == null then {} else {sub}
    ensures sub == null ==> !r
    ensures sub != null ==> r == LogsUser(logging, old(sub.log), sub.username)
    ensures sub != null ==> sub.log == (old(sub.log) || LogsUser(logging, old(sub.log), sub.username))
    ensures sub != null ==> sub.username == old(sub.username)
  {
    if !logging.enabled || sub == null {
      return false;
    }
    if sub.log {
      return true;
    }
    for i := 0 to |logging.usernames|
      invariant sub.username == old(sub.username)
      invariant sub.log <==> sub.username in logging.usernames[..i]
    {
      if logging.usernames[i] == sub.username {
        sub.log := true;
      }
    }
    assert logging.usernames[..|logging.usernames|] == logging.usernames;
    return sub.log;
  }

  /** A session that is logging keeps logging while logging is enabled, even when the username leaves the list. */
  lemma LoggingIsSticky(logging: Logging, username: string)
    ensures LogsUser(logging, true, username) <==> logging.enabled
    ensures LogsUser(logging.(usernames := []), true, username) == LogsUser(logging, true, username)
  {
  }

  /** A session that is not yet logging starts exactly when logging is enabled and its username is listed. */
  lemma LoggingStarts(logging: Logging, username: string)
    ensures LogsUser(logging, false, username) <==> logging.enabled && username in logging.usernames
  {
  }

  /** IsLoggingChannel: logging is enabled and the channel is listed. */
  method IsLoggingChannel(logging: Logging, channel: string) returns (r: bool)
    ensures r <==> logging.enabled && channel in logging.channels
  {
    if !logging.enabled {
      return false;
    }
    for i := 0 to |logging.channels|
      invariant channel !in logging.channels[..i]
    {
      if logging.channels[i] == channel {
        return true;
      }
    }
    assert logging.channels[..|logging.channels|] == logging.channels;
    return false;
  }

  /** initLogFile's file name: the directory, the middle components, then the last with ".txt", joined by "/". */
  function LogFileName(directory: string, components: seq<string>): (r: string)
    requires |components| >= 1
    ensures IsPrefix(directory + "/", r)
    ensures IsSuffix("/" + components[|components| - 1] + ".txt", r)
  {
    var front := [directory] + components[..|components| - 1];
    var file := components[|components| - 1] + ".txt";
    var parts := front + [file];
    JoinSnoc(front, file, "/");
    assert Join(parts, "/") == directory + "/" + Join(parts[1..], "/");
    assert Join(parts, "/") == Join(front, "/") + ("/" + file);
    Join(parts, "/")
  }

  /** Joining with one more part puts the separator and the part at the end. */
  lemma {:induction false} JoinSnoc(parts: seq<string>, last: string, sep: string)
    requires |parts| >= 1
    ensures Join(parts + [last], sep) == Join(parts, sep) + sep + last
  {
    if |parts| > 1 {
      JoinSnoc(parts[1..], last, sep);
      assert (parts + [last])[1..] == parts[1..] + [last];
    } else {
      assert (parts + [last])[1..] == [last];
    }
  }

  /** A user's direct-message log with another user is <directory>/@<user>/<other>.txt. */
  lemma DirectMessageLogName(directory: string, username: string, other: string)
    ensures LogFileName(directory, ["@" + username, other]) == directory + "/" + "@" + username + "/" + other + ".txt"
  {
    var parts := [directory] + ["@" + username] + [other + ".txt"];
    assert ["@" + username, other][..1] == ["@" + username];
    JoinSnoc([directory], "@" + username, "/");
    JoinSnoc([directory] + ["@" + username], other + ".txt", "/");
  }

  /** A public channel's log is <directory>/<channel>.txt. */
  lemma ChannelLogName(directory: string, channel: string)
    ensures LogFileName(directory, [channel]) == directory + "/" + channel + ".txt"
  {
    assert [channel][..0] == [];
    JoinSnoc([directory], channel + ".txt", "/");
  }

  /** The open log files of one owner (a session, or the server for channels), by last path component. */
  class LogCache {
    var logfh: map<string, string>

    /** Every cached file is the one named by the owner's directory, middle components and its key. */
    ghost predicate Valid(directory: string, middle: seq<string>)
      reads this
    {
      forall k :: k in logfh ==> logfh[k] == LogFileName(directory, middle + [k])
    }

    constructor()
      ensures logfh == map[]
    {
      logfh := map[];
    }
  }

  /**
   * initLogFile: a file already open under the last component is returned
   * without reopening; otherwise the directory is created and the file
   * opened, and the new handle cached, unless either step fails.
   */
  method InitLogFile(cache: LogCache, directory: string, components: seq<string>,
                     mkdirErr: Option<string>, openErr: Option<string>)
    returns (r: Result<string>)
    requires |components| >= 1
    modifies cache
    ensures var suffix := components[|components| - 1];
            suffix in old(cache.logfh) ==> r == Ok(old(cache.logfh)[suffix]) && cache.logfh == old(cache.logfh)
    ensures var suffix := components[|components| - 1];
            suffix !in old(cache.logfh) && mkdirErr.Some? ==> r == Err(mkdirErr.value) && cache.logfh == old(cache.logfh)
    ensures var suffix := components[|components| - 1];
            suffix !in old(cache.logfh) && mkdirErr.None? && openErr.Some? ==>
              r == Err(openErr.value) && cache.logfh == old(cache.logfh)
    ensures var suffix := components[|components| - 1];
            suffix !in old(cache.logfh) && mkdirErr.None? && openErr.None? ==>
              r == Ok(LogFileName(directory, components)) && cache.logfh == old(cache.logfh)[suffix := r.value]
    ensures var middle := components[..|components| - 1];
            old(cache.Valid(directory, middle)) ==> cache.Valid(directory, middle)
    ensures var middle := components[..|components| - 1];
            old(cache.Valid(directory, middle)) && r.Ok? ==> r.value == LogFileName(directory, components)
  {
    var suffix := components[|components| - 1];
    var middle := components[..|components| - 1];
    assert components == middle + [suffix];
    if suffix in cache.logfh {
      return Ok(cache.logfh[suffix]);
    }
    if mkdirErr.Some? {
      return Err(mkdirErr.value);
    }
    if openErr.Some? {
      return Err(openErr.value);
    }
    var filename := LogFileName(directory, components);
    cache.logfh := cache.logfh[suffix := filename];
    return Ok(filename);
  }

  /** One line of a conversation log: the time, the sender in brackets, the message. */
  function LogLine(now: string, sender: string, text: string): string {
    now + " [" + sender + "] " + text + "\n"
  }

  /**
   * LogMessage: nothing for a missing or non-logging session; otherwise the
   * line goes to the session's log with the other user, unless the log file
   * cannot be opened. `wrote` is the file name and the line written.
   */
  method LogMessage(sub: Subscriber?, cache: LogCache, directory: string, otherUsername: string,
                    senderUsername: string, text: string, now: string,
                    mkdirErr: Option<string>, openErr: Option<string>)
    returns (wrote: Option<(string, string)>)
    modifies cache
    ensures sub == null || !sub.log ==> wrote == None && cache.logfh == old(cache.logfh)
    ensures wrote.Some? ==> sub != null && sub.log && wrote.value.1 == LogLine(now, senderUsername, text)
    ensures sub != null && old(cache.Valid(directory, ["@" + sub.username])) ==>
              cache.Valid(directory, ["@" + sub.username])
    ensures sub != null && old(cache.Valid(directory, ["@" + sub.username])) && wrote.Some? ==>
              wrote.value.0 == LogFileName(directory, ["@" + sub.username, otherUsername])
    ensures sub != null && sub.log && mkdirErr.None? && openErr.None? ==> wrote.Some?
    ensures sub != null && sub.log ==>
              (wrote.Some? <==> otherUsername in old(cache.logfh) || (mkdirErr.None? && openErr.None?))
    ensures wrote.None? ==> cache.logfh == old(cache.logfh)
    ensures wrote.Some? ==> cache.logfh == old(cache.logfh)[otherUsername := wrote.value.0]
  {
    if sub == null || !sub.log {
      return None;
    }
    var components := ["@" + sub.username, otherUsername];
    assert components[..1] == ["@" + sub.username];
    var fh := InitLogFile(cache, directory, components, mkdirErr, openErr);
    if fh.Err? {
      return None;
    }
    return Some((fh.value, LogLine(now, senderUsername, text)));
  }
}
