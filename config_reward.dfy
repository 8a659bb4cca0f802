/**
 * `ConfigReward`: a configured reward (display name, display item, console commands, player
 * messages) and what executing it does. The two platform calls it makes are returned as
 * effects, in the order they are made; `None` stands for a null list.
 */
module ConfigRewards {
  import opened Wrappers
  import opened Placeholders

  const DEFAULT_DISPLAY_NAME: string := "Example Display Name"
  const PLAYER_KEY: string := "%player%"

  datatype ConfigReward<I> = ConfigReward(
    displayName: string,
    displayItem: Option<I>,
    commands: Option<seq<string>>,
    messages: Option<seq<string>>)

  /** `PlatformProxy.executeConsoleCommands` and `PlatformProxy.sendMessage`. */
  datatype Effect<Pl> =
    | ConsoleCommands(commands: seq<string>, placeholders: seq<Placeholder>)
    | SendMessage(player: Pl, messages: seq<string>, placeholders: seq<Placeholder>)

  /** The no-argument constructor used by config loading: the default name, everything else null. */
  function DefaultReward<I>(): (r: ConfigReward<I>)
    ensures r.displayName == DEFAULT_DISPLAY_NAME && r.displayItem.None? && r.commands.None? && r.messages.None?
  {
    ConfigReward(DEFAULT_DISPLAY_NAME, None, None, None)
  }

  /** The placeholders `execute` passes on: with a player, one more, `%player%` to the player's name. */
  function PlaceholdersFor<Pl>(player: Option<Pl>, nameOf: Pl -> string, placeholders: seq<Placeholder>): (r: seq<Placeholder>)
    ensures player.None? ==> r == placeholders
    ensures player.Some? ==>
      |r| == |placeholders| + 1 && r[..|placeholders|] == placeholders &&
      r[|placeholders|] == Simple(PLAYER_KEY, nameOf(player.value))
  {
    if player.None? then placeholders
    else placeholders + [Simple(PLAYER_KEY, nameOf(player.value))]
  }

  /** `execute(player, placeholders)`: the console commands if there are any, then the messages if there are any and a player. */
  function Execute<I, Pl>(reward: ConfigReward<I>, player: Option<Pl>, nameOf: Pl -> string, placeholders: seq<Placeholder>): (effects: seq<Effect<Pl>>)
    ensures var extended := PlaceholdersFor(player, nameOf, placeholders);
      var runCommands := reward.commands.Some? && |reward.commands.value| > 0;
      var sendMessages := player.Some? && reward.messages.Some? && |reward.messages.value| > 0;
      |effects| == (if runCommands then 1 else 0) + (if sendMessages then 1 else 0) &&
      (runCommands ==> effects[0] == ConsoleCommands(reward.commands.value, extended)) &&
      (sendMessages ==> effects[|effects| - 1] == SendMessage(player.value, reward.messages.value, extended))
  {
    var extended := PlaceholdersFor(player, nameOf, placeholders);
    var commands: seq<Effect<Pl>> :=
      if reward.commands.Some? && |reward.commands.value| > 0 then [ConsoleCommands(reward.commands.value, extended)] else [];
    var messages: seq<Effect<Pl>> :=
      if player.Some? && reward.messages.Some? && |reward.messages.value| > 0
      then [SendMessage(player.value, reward.messages.value, extended)] else [];
    commands + messages
  }

  /** `execute(placeholders)` is `execute(null, placeholders)`: no messages, the placeholders unchanged. */
  lemma ExecuteWithoutPlayer<I, Pl>(reward: ConfigReward<I>, nameOf: Pl -> string, placeholders: seq<Placeholder>)
    ensures var effects := Execute(reward, None, nameOf, placeholders);
      forall i | 0 <= i < |effects| :: effects[i] == ConsoleCommands(reward.commands.value, placeholders)
  {
  }

  /** The player placeholder put last replaces `%player%` in a line by the player's name. */
  lemma PlayerPlaceholderNamesThePlayer<Pl>(player: Pl, nameOf: Pl -> string, placeholders: seq<Placeholder>)
    ensures var last := PlaceholdersFor(Some(player), nameOf, placeholders)[|placeholders|];
      Apply(last, PLAYER_KEY) == [nameOf(player)]
  {
    assert PLAYER_KEY + "" == PLAYER_KEY;
    ReplaceAllLeading(PLAYER_KEY, "", nameOf(player));
    assert nameOf(player) + "" == nameOf(player);
  }

  /** `ConfigReward.Builder`. */
  class RewardBuilder<I> {
    var displayName: string
    var displayItem: Option<I>
    var commands: seq<string>
    var messages: seq<string>

    constructor ()
      ensures displayName == DEFAULT_DISPLAY_NAME && displayItem.None? && commands == [] && messages == []
    {
      displayName := DEFAULT_DISPLAY_NAME;
      displayItem := None;
      commands := [];
      messages := [];
    }

    method DisplayName(name: string)
      modifies this`displayName
      ensures displayName == name
    {
      displayName := name;
    }

    method DisplayItem(item: Option<I>)
      modifies this`displayItem
      ensures displayItem == item
    {
      displayItem := item;
    }

    /** `commands(list)`: `addAll`, which throws on a null list. */
    method Commands(more: Option<seq<string>>) returns (ok: bool)
      modifies this`commands
      ensures ok <==> more.Some?
      ensures commands == if more.Some? then old(commands) + more.value else old(commands)
    {
      if more.None? {
        return false;
      }
      commands := commands + more.value;
      return true;
    }

    /** `messages(list)`: `addAll`, which throws on a null list. */
    method Messages(more: Option<seq<string>>) returns (ok: bool)
      modifies this`messages
      ensures ok <==> more.Some?
      ensures messages == if more.Some? then old(messages) + more.value else old(messages)
    {
      if more.None? {
        return false;
      }
      messages := messages + more.value;
      return true;
    }

    method Build() returns (r: ConfigReward<I>)
      ensures r == ConfigReward(displayName, displayItem, Some(commands), Some(messages))
    {
      r := ConfigReward(displayName, displayItem, Some(commands), Some(messages));
    }
  }

  /** `toBuilder`: a fresh builder fed the reward's fields; a null command or message list makes it throw. */
  method ToBuilder<I>(reward: ConfigReward<I>) returns (r: Option<RewardBuilder<I>>)
    ensures r.Some? <==> reward.commands.Some? && reward.messages.Some?
    ensures r.Some? ==>
      fresh(r.value) &&
      r.value.displayName == reward.displayName && r.value.displayItem == reward.displayItem &&
      r.value.commands == reward.commands.value && r.value.messages == reward.messages.value
  {
    var builder := new RewardBuilder<I>();
    builder.DisplayName(reward.displayName);
    builder.DisplayItem(reward.displayItem);
    var ok := builder.Commands(reward.commands);
    if !ok {
      return None;
    }
    ok := builder.Messages(reward.messages);
    if !ok {
      return None;
    }
    return Some(builder);
  }

  /** `toBuilder().build()` gives back the same reward whenever both lists are present. */
  method Rebuild<I>(reward: ConfigReward<I>) returns (r: Option<ConfigReward<I>>)
    ensures reward.commands.Some? && reward.messages.Some? ==> r == Some(reward)
    ensures reward.commands.None? || reward.messages.None? ==> r.None?
  {
    var builder := ToBuilder(reward);
    if builder.None? {
      return None;
    }
    var built := builder.value.Build();
    return Some(built);
  }
}
