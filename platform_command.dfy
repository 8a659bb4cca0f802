/**
 * The dispatch tree of `PlatformCommand`: an immutable node with a name, aliases, an optional
 * permission predicate, no-permission and description providers, an optional executor, ordered
 * sub-commands and an optional tab handler; the router `executeSync`, the entry point `execute`,
 * the completion resolver `getTabCompletions` with its fallback chain, and the `Builder`.
 *
 * S is the sender type. E stands for the executor: running it (argument injection) happens
 * behind `PlatformCommandExecutor.execute`, so dispatch reports which executor got which tokens.
 */
module PlatformCommands {
  import opened Wrappers
  import opened JavaStrings

  type Args = seq<string>

  datatype Node<!S, E> = Node(
    name: string,
    aliases: seq<string>,
    permissionCheck: Option<(S, Args) -> bool>,
    noPermissionProvider: Option<S -> seq<string>>,
    descriptionProvider: Option<(S, Args) -> seq<string>>,
    executor: Option<E>,
    subCommands: seq<Node<S, E>>,
    tabHandler: Option<(S, Args) -> seq<string>>)

  /** What one dispatch does. */
  datatype Outcome<E> =
    | Denied(message: Option<seq<string>>)    // no-permission lines sent, if there is a provider
    | Executed(executor: E, args: Args)       // the executor ran on these tokens
    | Described(lines: seq<string>)           // the description was sent
    | Noop                                    // nothing happened

  /** `checkPermission`: a missing predicate lets everyone through. */
  predicate CheckPermission<S, E>(n: Node<S, E>, sender: S, args: Args) {
    n.permissionCheck.None? || n.permissionCheck.value(sender, args)
  }

  /** `fitsCommand`: the token equals the name or one of the aliases, ignoring case. */
  predicate Fits<S, E>(arg: string, sub: Node<S, E>) {
    EqualsIgnoreCase(sub.name, arg) || exists i | 0 <= i < |sub.aliases| :: EqualsIgnoreCase(sub.aliases[i], arg)
  }

  /** Index of the first sub-command, in list order from `from`, that fits `arg`. */
  function FirstFitFrom<S, E>(arg: string, subs: seq<Node<S, E>>, from: nat): (r: Option<nat>)
    requires from <= |subs|
    ensures r.Some? ==> from <= r.value < |subs| && Fits(arg, subs[r.value])
    ensures r.Some? ==> forall j | from <= j < r.value :: !Fits(arg, subs[j])
    ensures r.None? ==> forall j | from <= j < |subs| :: !Fits(arg, subs[j])
    decreases |subs| - from
  {
    if from == |subs| then None
    else if Fits(arg, subs[from]) then Some(from)
    else FirstFitFrom(arg, subs, from + 1)
  }

  function FirstFit<S, E>(arg: string, subs: seq<Node<S, E>>): (r: Option<nat>)
    ensures r.Some? ==> r.value < |subs| && Fits(arg, subs[r.value])
    ensures r.Some? ==> forall j | 0 <= j < r.value :: !Fits(arg, subs[j])
    ensures r.None? ==> forall j | 0 <= j < |subs| :: !Fits(arg, subs[j])
  {
    FirstFitFrom(arg, subs, 0)
  }

  /** The sub-command `args[0]` selects, if any. */
  function Selected<S, E>(n: Node<S, E>, args: Args): Option<nat>
  {
    if |args| > 0 then FirstFit(args[0], n.subCommands) else None
  }

  /** `sendNoPermission`. */
  function NoPermission<S, E>(n: Node<S, E>, sender: S): Outcome<E> {
    Denied(if n.noPermissionProvider.Some? then Some(n.noPermissionProvider.value(sender)) else None)
  }

  /** What the node itself does once no sub-command was selected. */
  function RunHere<S, E>(n: Node<S, E>, sender: S, args: Args): Outcome<E> {
    if n.executor.Some? then Executed(n.executor.value, args)
    else if n.descriptionProvider.Some? then Described(n.descriptionProvider.value(sender, args))
    else Noop
  }

  /**
   * `executeSync`: the node's own permission is checked first, then the first fitting
   * sub-command gets the tail of the tokens, then the executor the whole tokens, then the
   * description.
   */
  function ExecuteSync<S, E>(n: Node<S, E>, sender: S, args: Args): Outcome<E>
    decreases n
  {
    if !CheckPermission(n, sender, args) then NoPermission(n, sender)
    else match Selected(n, args)
      case Some(i) => ExecuteSync(n.subCommands[i], sender, args[1..])
      case None => RunHere(n, sender, args)
  }

  /** `execute`: a null sender or null tokens is only logged. */
  function Execute<S, E>(n: Node<S, E>, sender: Option<S>, args: Option<Args>): Outcome<E> {
    if sender.None? || args.None? then Noop
    else ExecuteSync(n, sender.value, args.value)
  }

  /** Permission holds at every node the tokens lead through, down to the node that runs. */
  ghost predicate PermittedAlong<S, E>(n: Node<S, E>, sender: S, args: Args)
    decreases n
  {
    CheckPermission(n, sender, args) &&
    match Selected(n, args)
    case Some(i) => PermittedAlong(n.subCommands[i], sender, args[1..])
    case None => true
  }

  /** The node the tokens lead to, following fitting sub-commands, and the tokens left for it. */
  ghost function Resolve<S, E>(n: Node<S, E>, args: Args): (Node<S, E>, Args)
    decreases n
  {
    match Selected(n, args)
    case Some(i) => Resolve(n.subCommands[i], args[1..])
    case None => (n, args)
  }

  /**
   * Dispatch is denied exactly when some node on the path fails its permission; otherwise the
   * resolved node runs on the tokens left for it.
   */
  lemma {:induction false} ExecuteSyncResolves<S, E>(n: Node<S, E>, sender: S, args: Args)
    ensures ExecuteSync(n, sender, args).Denied? <==> !PermittedAlong(n, sender, args)
    ensures PermittedAlong(n, sender, args) ==>
      ExecuteSync(n, sender, args) == RunHere(Resolve(n, args).0, sender, Resolve(n, args).1)
    decreases n
  {
    if CheckPermission(n, sender, args) {
      match Selected(n, args)
      case Some(i) => ExecuteSyncResolves(n.subCommands[i], sender, args[1..]);
      case None =>
    }
  }

  /** An executor only ever runs when permission held along the whole path. */
  lemma ExecutedOnlyWhenPermitted<S, E>(n: Node<S, E>, sender: S, args: Args)
    requires ExecuteSync(n, sender, args).Executed? || ExecuteSync(n, sender, args).Described?
    ensures PermittedAlong(n, sender, args)
  {
    ExecuteSyncResolves(n, sender, args);
  }

  /** A failing permission sends only the no-permission lines, and nothing else runs. */
  lemma DeniedSendsOnlyNoPermission<S, E>(n: Node<S, E>, sender: S, args: Args)
    requires !CheckPermission(n, sender, args)
    ensures ExecuteSync(n, sender, args) == Denied(
      if n.noPermissionProvider.Some? then Some(n.noPermissionProvider.value(sender)) else None)
  {
  }

  /** The first fitting sub-command, in list order, gets the tail. */
  lemma SubCommandTakesTail<S, E>(n: Node<S, E>, sender: S, args: Args, i: nat)
    requires CheckPermission(n, sender, args) && |args| > 0 && i < |n.subCommands|
    requires Fits(args[0], n.subCommands[i])
    requires forall j | 0 <= j < i :: !Fits(args[0], n.subCommands[j])
    ensures ExecuteSync(n, sender, args) == ExecuteSync(n.subCommands[i], sender, args[1..])
  {
    assert FirstFit(args[0], n.subCommands) == Some(i);
  }

  /** With no fitting sub-command a present executor gets the tokens unchanged. */
  lemma ExecutorGetsAllTokens<S, E>(n: Node<S, E>, sender: S, args: Args)
    requires CheckPermission(n, sender, args) && n.executor.Some?
    requires |args| == 0 || forall j | 0 <= j < |n.subCommands| :: !Fits(args[0], n.subCommands[j])
    ensures ExecuteSync(n, sender, args) == Executed(n.executor.value, args)
  {
  }

  /**
   * The description is sent exactly when the resolved node has no executor but a description
   * provider, and it is the provider's lines for the tokens left; with neither, nothing happens.
   */
  lemma DescribedOnlyWithoutExecutor<S, E>(n: Node<S, E>, sender: S, args: Args)
    ensures var (target, rest) := Resolve(n, args);
      var outcome := ExecuteSync(n, sender, args);
      (outcome.Described? <==>
        PermittedAlong(n, sender, args) && target.executor.None? && target.descriptionProvider.Some?) &&
      (outcome.Described? ==> outcome.lines == target.descriptionProvider.value(sender, rest)) &&
      (outcome.Noop? <==>
        PermittedAlong(n, sender, args) && target.executor.None? && target.descriptionProvider.None?)
  {
    ExecuteSyncResolves(n, sender, args);
  }

  /** A null sender or null tokens does nothing. */
  lemma ExecuteRejectsNull<S, E>(n: Node<S, E>, sender: Option<S>, args: Option<Args>)
    ensures sender.None? || args.None? ==> Execute(n, sender, args) == Noop
    ensures sender.Some? && args.Some? ==> Execute(n, sender, args) == ExecuteSync(n, sender.value, args.value)
  {
  }

  /** `getAccessibleSubCommands` as a function: the aliases of permitted sub-commands, in order. */
  function AccessibleAliases<S, E>(subs: seq<Node<S, E>>, sender: S, args: Args): seq<string>
  {
    if subs == [] then []
    else
      var own := if CheckPermission(subs[0], sender, args) then subs[0].aliases else [];
      own + AccessibleAliases(subs[1..], sender, args)
  }

  lemma {:induction false} AccessibleAliasesAppend<S, E>(a: seq<Node<S, E>>, b: seq<Node<S, E>>, sender: S, args: Args)
    ensures AccessibleAliases(a + b, sender, args) == AccessibleAliases(a, sender, args) + AccessibleAliases(b, sender, args)
  {
    if a == [] {
      assert a + b == b;
    } else {
      assert (a + b)[0] == a[0];
      assert (a + b)[1..] == a[1..] + b;
      AccessibleAliasesAppend(a[1..], b, sender, args);
    }
  }

  /** An alias is offered exactly when some permitted sub-command carries it. */
  lemma {:induction false} AccessibleAliasesMembers<S, E>(subs: seq<Node<S, E>>, sender: S, args: Args, x: string)
    ensures x in AccessibleAliases(subs, sender, args) <==>
      exists i | 0 <= i < |subs| :: CheckPermission(subs[i], sender, args) && x in subs[i].aliases
  {
    if subs != [] {
      AccessibleAliasesMembers(subs[1..], sender, args, x);
      if x in AccessibleAliases(subs[1..], sender, args) {
        var i :| 0 <= i < |subs[1..]| && CheckPermission(subs[1..][i], sender, args) && x in subs[1..][i].aliases;
        assert subs[i + 1] == subs[1..][i];
      }
      if exists i | 0 <= i < |subs| :: CheckPermission(subs[i], sender, args) && x in subs[i].aliases {
        var i :| 0 <= i < |subs| && CheckPermission(subs[i], sender, args) && x in subs[i].aliases;
        if i > 0 {
          assert subs[1..][i - 1] == subs[i];
        }
      }
    }
  }

  /** `getAccessibleSubCommands`: the loop that appends the aliases of each permitted sub-command. */
  method GetAccessibleSubCommands<S, E>(n: Node<S, E>, sender: S, args: Args) returns (r: seq<string>)
    ensures r == AccessibleAliases(n.subCommands, sender, args)
  {
    r := [];
    var i := 0;
    while i < |n.subCommands|
      invariant 0 <= i <= |n.subCommands|
      invariant r == AccessibleAliases(n.subCommands[..i], sender, args)
    {
      var sub := n.subCommands[i];
      AccessibleAliasesAppend(n.subCommands[..i], [sub], sender, args);
      assert n.subCommands[..i + 1] == n.subCommands[..i] + [sub];
      assert AccessibleAliases([sub], sender, args) == if CheckPermission(sub, sender, args) then sub.aliases else [] by {
        assert [sub][1..] == [];
      }
      if CheckPermission(sub, sender, args) {
        r := r + sub.aliases;
      }
      i := i + 1;
    }
    assert n.subCommands[..i] == n.subCommands;
  }

  /** `getPlayers`: an empty name gives every online name, otherwise the platform's matcher decides. */
  function GetPlayers(name: string, online: seq<string>, matching: (string, seq<string>) -> seq<string>): seq<string> {
    if name == [] then online else matching(name, online)
  }

  /**
   * The fallback applied to the list a node computed: when empty it becomes the aliases of the
   * permitted sub-commands, and when still empty the online names (no tokens) or
   * `getPlayers(args[0])`.
   */
  function Fallback<S, E>(n: Node<S, E>, sender: S, args: Args, computed: seq<string>,
                          online: seq<string>, matching: (string, seq<string>) -> seq<string>): seq<string>
  {
    var withSubs := if computed == [] then AccessibleAliases(n.subCommands, sender, args) else computed;
    if withSubs != [] then withSubs
    else if |args| == 0 then online
    else GetPlayers(args[0], online, matching)
  }

  /** The completions of `getTabCompletions` for a non-null sender and tokens. */
  function TabCompletions<S, E>(n: Node<S, E>, sender: S, args: Args, online: seq<string>,
                                matching: (string, seq<string>) -> seq<string>): seq<string>
    decreases n
  {
    var computed :=
      match Selected(n, args)
      case Some(i) => TabCompletions(n.subCommands[i], sender, args[1..], online, matching)
      case None => if n.tabHandler.Some? then n.tabHandler.value(sender, args) else [];
    Fallback(n, sender, args, computed, online, matching)
  }

  /**
   * `getTabCompletions`: null sender or tokens give an empty list; a fitting sub-command completes
   * on the tail with no permission check; otherwise the tab handler; then the fallback chain.
   */
  method GetTabCompletions<S, E>(n: Node<S, E>, sender: Option<S>, args: Option<Args>, online: seq<string>,
                                 matching: (string, seq<string>) -> seq<string>) returns (r: seq<string>)
    ensures sender.None? || args.None? ==> r == []
    ensures sender.Some? && args.Some? ==> r == TabCompletions(n, sender.value, args.value, online, matching)
    decreases n
  {
    if sender.None? || args.None? {
      return [];
    }
    var s, a := sender.value, args.value;
    var computed: seq<string> := [];
    var matched := false;
    if |a| > 0 {
      var i := 0;
      while i < |n.subCommands| && !matched
        invariant 0 <= i <= |n.subCommands|
        invariant !matched ==> forall j | 0 <= j < i :: !Fits(a[0], n.subCommands[j])
        invariant !matched ==> computed == []
        invariant matched ==> Selected(n, a).Some?
        invariant matched ==> computed == TabCompletions(n.subCommands[Selected(n, a).value], s, a[1..], online, matching)
        decreases |n.subCommands| - i, !matched
      {
        if Fits(a[0], n.subCommands[i]) {
          assert FirstFit(a[0], n.subCommands) == Some(i);
          computed := GetTabCompletions(n.subCommands[i], sender, Some(a[1..]), online, matching);
          matched := true;
        } else {
          i := i + 1;
        }
      }
    }
    if !matched && n.tabHandler.Some? {
      computed := n.tabHandler.value(s, a);
    }
    assert !matched ==> Selected(n, a).None?;
    assert Selected(n, a).None? ==> computed == if n.tabHandler.Some? then n.tabHandler.value(s, a) else [];
    if computed == [] {
      computed := GetAccessibleSubCommands(n, s, a);
    }
    if computed == [] {
      computed := if |a| == 0 then online else GetPlayers(a[0], online, matching);
    }
    r := computed;
  }

  /** A non-empty list from a fitting sub-command is returned as it is, whatever the permissions. */
  lemma TabCompletionsDelegate<S, E>(n: Node<S, E>, sender: S, args: Args, online: seq<string>,
                                     matching: (string, seq<string>) -> seq<string>)
    requires Selected(n, args).Some?
    requires TabCompletions(n.subCommands[Selected(n, args).value], sender, args[1..], online, matching) != []
    ensures TabCompletions(n, sender, args, online, matching) ==
      TabCompletions(n.subCommands[Selected(n, args).value], sender, args[1..], online, matching)
  {
  }

  /** With no fitting sub-command, a non-empty tab-handler result is returned as it is. */
  lemma TabCompletionsUseHandler<S, E>(n: Node<S, E>, sender: S, args: Args, online: seq<string>,
                                       matching: (string, seq<string>) -> seq<string>)
    requires Selected(n, args).None? && n.tabHandler.Some? && n.tabHandler.value(sender, args) != []
    ensures TabCompletions(n, sender, args, online, matching) == n.tabHandler.value(sender, args)
  {
  }

  /** The fallback order: permitted sub-command aliases first, then online names or `getPlayers(args[0])`. */
  lemma FallbackOrder<S, E>(n: Node<S, E>, sender: S, args: Args, online: seq<string>,
                            matching: (string, seq<string>) -> seq<string>)
    ensures AccessibleAliases(n.subCommands, sender, args) != [] ==>
      Fallback(n, sender, args, [], online, matching) == AccessibleAliases(n.subCommands, sender, args)
    ensures AccessibleAliases(n.subCommands, sender, args) == [] && |args| == 0 ==>
      Fallback(n, sender, args, [], online, matching) == online
    ensures AccessibleAliases(n.subCommands, sender, args) == [] && |args| > 0 ==>
      Fallback(n, sender, args, [], online, matching) == GetPlayers(args[0], online, matching)
    ensures GetPlayers("", online, matching) == online
  {
  }

  /** A leaf with no handler completes no tokens with the online names. */
  lemma TabCompletionsOnlineNames<S, E>(n: Node<S, E>, sender: S, online: seq<string>,
                                        matching: (string, seq<string>) -> seq<string>)
    requires n.subCommands == [] && n.tabHandler.None?
    ensures TabCompletions(n, sender, [], online, matching) == online
  {
  }

  /** `PlatformCommand.Builder`: setters overwrite, `aliases` and `subCommands` append. */
  class CommandBuilder<!S, E> {
    var name: Option<string>
    var descriptionProvider: Option<(S, Args) -> seq<string>>
    var permissionCheck: Option<(S, Args) -> bool>
    var noPermissionProvider: Option<S -> seq<string>>
    var aliases: seq<string>
    var executor: Option<E>
    var tabHandler: Option<(S, Args) -> seq<string>>
    var subCommands: seq<Node<S, E>>

    constructor ()
      ensures name.None? && descriptionProvider.None? && permissionCheck.None?
      ensures noPermissionProvider.None? && executor.None? && tabHandler.None?
      ensures aliases == [] && subCommands == []
    {
      name := None;
      descriptionProvider := None;
      permissionCheck := None;
      noPermissionProvider := None;
      aliases := [];
      executor := None;
      tabHandler := None;
      subCommands := [];
    }

    method Name(n: string)
      modifies this`name
      ensures name == Some(n)
    {
      name := Some(n);
    }

    method DescriptionProvider(p: Option<(S, Args) -> seq<string>>)
      modifies this`descriptionProvider
      ensures descriptionProvider == p
    {
      descriptionProvider := p;
    }

    method PermissionCheck(p: Option<(S, Args) -> bool>)
      modifies this`permissionCheck
      ensures permissionCheck == p
    {
      permissionCheck := p;
    }

    method NoPermissionProvider(p: Option<S -> seq<string>>)
      modifies this`noPermissionProvider
      ensures noPermissionProvider == p
    {
      noPermissionProvider := p;
    }

    method Aliases(more: seq<string>)
      modifies this`aliases
      ensures aliases == old(aliases) + more
    {
      aliases := aliases + more;
    }

    method Executor(e: Option<E>)
      modifies this`executor
      ensures executor == e
    {
      executor := e;
    }

    method TabHandler(h: Option<(S, Args) -> seq<string>>)
      modifies this`tabHandler
      ensures tabHandler == h
    {
      tabHandler := h;
    }

    method SubCommands(more: seq<Node<S, E>>)
      modifies this`subCommands
      ensures subCommands == old(subCommands) + more
    {
      subCommands := subCommands + more;
    }

    /** `build`: the node copies every field of the builder. */
    function Build(): (n: Node<S, E>)
      requires name.Some?
      reads this
      ensures n.name == name.value && n.aliases == aliases && n.subCommands == subCommands
      ensures n.executor == executor && n.permissionCheck == permissionCheck
      ensures n.descriptionProvider == descriptionProvider && n.noPermissionProvider == noPermissionProvider
      ensures n.tabHandler == tabHandler
    {
      Node(name.value, aliases, permissionCheck, noPermissionProvider, descriptionProvider, executor, subCommands, tabHandler)
    }
  }
}
