/**
 * The status menu of the chat front end (src/lib/StatusMessage.js): the
 * table of status options by category, its flattened list and name index,
 * the options the status drop-down shows, and the lookup with a fallback.
 */
module StatusMessage {
  import opened Common

  /** One entry of the menu; `title` holds the entry's `label` (a reserved word in Dafny). */
  datatype StatusOption = StatusOption(name: string, title: string, emoji: string, icon: string,
                                       hidden: bool, adminOnly: bool, nsfw: bool)

  datatype Category = Category(category: string, options: seq<StatusOption>)

  function Plain(name: string, title: string, emoji: string, icon: string): StatusOption {
    StatusOption(name, title, emoji, icon, false, false, false)
  }

  /** The StatusOptions table. */
  const StatusOptions: seq<Category> := [Category("Status", StatusGroup), Category("Mood", MoodGroup)]

  const StatusGroup: seq<StatusOption> := [
    Plain("online", "Active", "\U{2600}\U{FE0F}", "fa fa-clock"),
    Plain("away", "Away", "\U{1F552}", "fa fa-clock"),
    Plain("brb", "Be right back", "\U{23F0}", "fa fa-stopwatch-20"),
    Plain("afk", "Away from keyboard", "\U{2328}\U{FE0F}", "fa fa-keyboard who-status-wide-icon-1"),
    Plain("lunch", "Out to lunch", "\U{1F374}", "fa fa-utensils"),
    Plain("call", "On the phone", "\U{1F4DE}", "fa fa-phone-volume"),
    Plain("busy", "Working", "\U{1F4BC}", "fa fa-briefcase"),
    Plain("book", "Studying", "\U{1F4D6}", "fa fa-book"),
    Plain("gaming", "Gaming", "\U{1F3AE}", "fa fa-gamepad who-status-wide-icon-2"),
    Plain("movie", "Watching a movie", "\U{1F39E}\U{FE0F}", "fa fa-film"),
    Plain("travel", "Traveling", "\U{2708}\U{FE0F}", "fa fa-plane"),
    Plain("idle", "Idle", "\U{1F552}", "fa-regular fa-moon").(hidden := true),
    Plain("hidden", "Hidden", "\U{1F575}\U{FE0F}", "").(adminOnly := true)
  ]

  const MoodGroup: seq<StatusOption> := [
    Plain("chatty", "Chatty and sociable", "\U{1F5E8}\U{FE0F}", "fa fa-comment"),
    Plain("introverted", "Introverted and quiet", "\U{1F944}", "fa fa-spoon"),
    Plain("horny", "Horny", "\U{1F525}", "fa fa-fire").(nsfw := true),
    Plain("exhibitionist", "Watch me", "\U{1F440}", "fa-regular fa-eye who-status-wide-icon-1").(nsfw := true)
  ]

  /** StatusFlattened: every category's options, in table order. */
  function Flatten(groups: seq<Category>): (r: seq<StatusOption>)
    ensures forall x :: x in r ==> exists g :: 0 <= g < |groups| && x in groups[g].options
  {
    if |groups| == 0 then []
    else Flatten(groups[..|groups| - 1]) + groups[|groups| - 1].options
  }

  /** An option is in the flattened list exactly when some category holds it. */
  lemma {:induction false} FlattenMembers(groups: seq<Category>, x: StatusOption)
    ensures x in Flatten(groups) <==> exists g :: 0 <= g < |groups| && x in groups[g].options
  {
    if |groups| > 0 {
      var prefix := groups[..|groups| - 1];
      FlattenMembers(prefix, x);
      assert Flatten(groups) == Flatten(prefix) + groups[|groups| - 1].options;
      assert forall g :: 0 <= g < |prefix| ==> prefix[g] == groups[g];
    }
  }

  /** StatusByName: each option under its name, a later option winning a shared name. */
  function ByName(options: seq<StatusOption>): (r: map<string, StatusOption>)
    ensures forall n :: n in r <==> exists i :: 0 <= i < |options| && options[i].name == n
  {
    if |options| == 0 then map[]
    else
      var r := ByName(options[..|options| - 1]);
      var last := options[|options| - 1];
      assert forall i :: 0 <= i < |options| - 1 ==> options[..|options| - 1][i] == options[i];
      r[last.name := last]
  }

  predicate UniqueNames(options: seq<StatusOption>) {
    forall i, j :: 0 <= i < j < |options| ==> options[i].name != options[j].name
  }

  /** With unique names, every option is found under its own name. */
  lemma {:induction false} ByNameFinds(options: seq<StatusOption>, i: nat)
    requires UniqueNames(options) && i < |options|
    ensures options[i].name in ByName(options) && ByName(options)[options[i].name] == options[i]
  {
    var prefix := options[..|options| - 1];
    if i < |options| - 1 {
      assert UniqueNames(prefix) by {
        forall a, b | 0 <= a < b < |prefix| ensures prefix[a].name != prefix[b].name {
          assert prefix[a] == options[a] && prefix[b] == options[b];
        }
      }
      assert prefix[i] == options[i];
      ByNameFinds(prefix, i);
    }
  }

  /** The names of the table, in order. */
  const TableNames := ["online", "away", "brb", "afk", "lunch", "call", "busy", "book", "gaming", "movie",
                       "travel", "idle", "hidden", "chatty", "introverted", "horny", "exhibitionist"]

  lemma TableNamesInOrder()
    ensures |Flatten(StatusOptions)| == |TableNames|
    ensures forall k :: 0 <= k < |TableNames| ==> Flatten(StatusOptions)[k].name == TableNames[k]
  {
    assert Flatten(StatusOptions[..1]) == StatusGroup;
    assert Flatten(StatusOptions) == StatusGroup + MoodGroup;
    GroupNames();
  }

  lemma GroupNames()
    ensures |StatusGroup| == 13 && |MoodGroup| == 4
    ensures forall k :: 0 <= k < 13 ==> StatusGroup[k].name == TableNames[k]
    ensures forall k :: 0 <= k < 4 ==> MoodGroup[k].name == TableNames[13 + k]
  {
  }

  /** The first two letters of each name in the table, which already tell the names apart. */
  const TableInitials: seq<(char, char)> :=
    [('o', 'n'), ('a', 'w'), ('b', 'r'), ('a', 'f'), ('l', 'u'), ('c', 'a'), ('b', 'u'), ('b', 'o'), ('g', 'a'),
     ('m', 'o'), ('t', 'r'), ('i', 'd'), ('h', 'i'), ('c', 'h'), ('i', 'n'), ('h', 'o'), ('e', 'x')]

  lemma TableInitialsMatch()
    ensures |TableInitials| == |TableNames|
    ensures forall k :: 0 <= k < |TableNames| ==> |TableNames[k]| >= 2 && TableNames[k][0] == TableInitials[k].0
                                                  && TableNames[k][1] == TableInitials[k].1
  {
  }

  lemma TableInitialsDistinct()
    ensures forall i, j :: 0 <= i < j < |TableInitials| ==> TableInitials[i] != TableInitials[j]
  {
  }

  /** The names in the table are all different. */
  lemma TableNamesUnique()
    ensures UniqueNames(Flatten(StatusOptions))
  {
    TableNamesInOrder();
    TableInitialsMatch();
    TableInitialsDistinct();
    forall i, j | 0 <= i < j < |TableNames| ensures TableNames[i] != TableNames[j] {
      assert TableInitials[i] != TableInitials[j];
    }
  }

  /** iterSelectOptions' filter: an option is shown unless one of its three conditions rules it out. */
  predicate Shown(option: StatusOption, current: string, isAdmin: bool, nsfw: bool) {
    !((option.hidden && current != option.name) || (option.adminOnly && !isAdmin) || (option.nsfw && !nsfw))
  }

  function ShownOptions(options: seq<StatusOption>, current: string, isAdmin: bool, nsfw: bool): (r: seq<StatusOption>)
    ensures forall x :: x in r <==> x in options && Shown(x, current, isAdmin, nsfw)
    ensures |r| <= |options|
  {
    if |options| == 0 then []
    else
      var rest := ShownOptions(options[1..], current, isAdmin, nsfw);
      assert options == [options[0]] + options[1..];
      if Shown(options[0], current, isAdmin, nsfw) then [options[0]] + rest else rest
  }

  /** Nothing ruled out, nothing dropped: the filter keeps the order. */
  lemma {:induction false} ShownKeepsAll(options: seq<StatusOption>, current: string, isAdmin: bool, nsfw: bool)
    requires forall i :: 0 <= i < |options| ==> Shown(options[i], current, isAdmin, nsfw)
    ensures ShownOptions(options, current, isAdmin, nsfw) == options
  {
    if |options| > 0 {
      ShownKeepsAll(options[1..], current, isAdmin, nsfw);
    }
  }

  /**
   * iterSelectOptions: the shown options of the first category with the
   * name, or nothing for an unknown category.
   */
  function IterSelectOptions(groups: seq<Category>, category: string, current: string, isAdmin: bool, nsfw: bool)
    : (r: seq<StatusOption>)
    ensures (forall g :: 0 <= g < |groups| ==> groups[g].category != category) ==> r == []
    ensures forall x :: x in r ==> Shown(x, current, isAdmin, nsfw)
    ensures forall g :: 0 <= g < |groups| && groups[g].category == category &&
                        (forall h :: 0 <= h < g ==> groups[h].category != category) ==>
              r == ShownOptions(groups[g].options, current, isAdmin, nsfw)
  {
    if |groups| == 0 then []
    else if groups[0].category == category then ShownOptions(groups[0].options, current, isAdmin, nsfw)
    else
      assert forall g :: 1 <= g < |groups| ==> groups[g] == groups[1..][g - 1];
      IterSelectOptions(groups[1..], category, current, isAdmin, nsfw)
  }

  /** The placeholder for an unknown status name. */
  function Placeholder(name: string): StatusOption {
    Plain(name, name, "\U{1F552}", "fa fa-clock")
  }

  /** getStatus: the registered option, or the placeholder named after the input. */
  function GetStatus(name: string): (r: StatusOption)
    ensures name in ByName(Flatten(StatusOptions)) ==> r == ByName(Flatten(StatusOptions))[name]
    ensures name !in ByName(Flatten(StatusOptions)) ==> r.name == name && r.title == name
  {
    var byName := ByName(Flatten(StatusOptions));
    if name in byName then byName[name] else Placeholder(name)
  }

  /** Every option of the table is what getStatus returns for its name, and getStatus always answers with that name. */
  lemma GetStatusFindsTable(i: nat)
    requires i < |Flatten(StatusOptions)|
    ensures GetStatus(Flatten(StatusOptions)[i].name) == Flatten(StatusOptions)[i]
  {
    TableNamesUnique();
    ByNameFinds(Flatten(StatusOptions), i);
  }

  /** A name outside the table gets the placeholder. */
  lemma GetStatusUnknown(name: string)
    requires forall x :: x in Flatten(StatusOptions) ==> x.name != name
    ensures GetStatus(name) == Placeholder(name)
  {
  }
}
