/**
 * The chatbot's helpers around its RiveScript brain (client/chatbot.go):
 * the user variables handed to the brain before a reply, the who-list
 * lookup, and the "no reply" test. The brain itself is a foreign object;
 * what is handed to it is the result here.
 */
module Chatbot {
  import opened Common
  import opened Messages

  /** NoReply: the reply carries the <noreply> tag or is only white space. */
  function NoReply(message: string): (r: bool)
    ensures r <==> Contains(message, "<noreply>") || AllSpace(message)
  {
    TrimSpaceEmptyIff(message);
    Contains(message, "<noreply>") || TrimSpace(message) == ""
  }

  /** GetUser: the first who-list entry with the username. */
  function GetUser(whoList: seq<WhoList>, username: string): (r: Option<WhoList>)
    ensures r.None? <==> forall i :: 0 <= i < |whoList| ==> whoList[i].username != username
    ensures r.Some? ==> exists i :: 0 <= i < |whoList| && whoList[i] == r.value && r.value.username == username
                          && forall j :: 0 <= j < i ==> whoList[j].username != username
  {
    if |whoList| == 0 then None
    else if whoList[0].username == username then Some(whoList[0])
    else
      var r := GetUser(whoList[1..], username);
      if r.Some? then
        var i :| 0 <= i < |whoList[1..]| && whoList[1..][i] == r.value && r.value.username == username
                 && forall j :: 0 <= j < i ==> whoList[1..][j].username != username;
        assert whoList[i + 1] == r.value;
        assert forall j :: 1 <= j < i + 1 ==> whoList[j] == whoList[1..][j - 1];
        r
      else r
  }

  /** What SetUserVariables hands to the brain: the global user count and the user's variables. */
  datatype BrainVars = BrainVars(numUsersOnline: string, user: map<string, string>)

  /**
   * SetUserVariables: `name` is the user's nickname when the who list has a
   * non-empty one and the username otherwise; `isAdmin` is "true" only for
   * an operator; `messageID` is the message's ID in decimal. The global user
   * count is the length of the who list.
   */
  function SetUserVariables(whoList: seq<WhoList>, msg: Message): (r: BrainVars)
    ensures r.numUsersOnline == NatToString(|whoList|)
    ensures r.user.Keys == {"name", "isAdmin", "messageID"}
    ensures var who := GetUser(whoList, msg.username);
            r.user["name"] == (if who.Some? && who.value.nickname != "" then who.value.nickname else msg.username)
    ensures var who := GetUser(whoList, msg.username);
            r.user["isAdmin"] == "true" <==> who.Some? && who.value.operator
    ensures r.user["isAdmin"] in {"true", "false"}
    ensures r.user["messageID"] == IntToString(msg.messageID)
  {
    var vars := map["name" := msg.username, "isAdmin" := "false", "messageID" := IntToString(msg.messageID)];
    var who := GetUser(whoList, msg.username);
    var vars := if who.Some? && who.value.nickname != "" then vars["name" := who.value.nickname] else vars;
    var vars := if who.Some? && who.value.operator then vars["isAdmin" := "true"] else vars;
    BrainVars(NatToString(|whoList|), vars)
  }
}
