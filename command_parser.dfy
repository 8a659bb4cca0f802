/**
 * `AnnotationCommandParser`: turns an annotated command class into a `PlatformCommand` node, or
 * fails the way the Java code throws. Reflection is replaced by an explicit schema: a class
 * definition lists its `@Command` aliases, `@Permissible` value, `@Description` lines, the
 * sub-command classes of `@SubCommands` and its declared methods in declaration order; a method
 * lists its visibility, its marker annotations and its parameters as (type, annotations).
 * The command factory's registries and the sender-type factory are lookup tables in `Env`.
 */
module AnnotationParser {
  import opened Wrappers
  import opened PlatformCommands

  /** A Java class, by its name. */
  type TypeId = string

  const STRING_ARRAY: TypeId := "java.lang.String[]"
  const LIST: TypeId := "java.util.List"

  /** The no-permission line every parsed command sends. */
  const NO_PERMISSION_MESSAGE: string := "&c&l(!) &cYou do not have permission to use this command!"

  /** A parameter annotation. */
  datatype Annotation =
    | SenderAnn
    | ArgumentAnn(defaultValue: string)
    | CompletableAnn(completer: TypeId)
    | OtherAnn(name: string)

  datatype Param = Param(ptype: TypeId, annotations: seq<Annotation>)

  /** What a reflective call receives as its sender: the platform sender, or its `SenderType` adaptation. */
  datatype CallSender<S> = RawSender(sender: S) | AdaptedSender(senderType: TypeId, sender: S)

  /** The outcome of `Method.invoke` or of a completer: it threw, or it returned a value of some kind. */
  datatype Value = BoolValue(b: bool) | LinesValue(lines: seq<string>) | OtherValue
  datatype Invocation = Threw | Returned(value: Value)

  /** A declared method; `processor` is `@CommandProcessor` with its `executeAsync`. */
  datatype MethodDef<!S> = MethodDef(
    name: string,
    isPublic: bool,
    processor: Option<bool>,
    permissionHandler: bool,
    descriptionHandler: bool,
    completionHandler: bool,
    params: seq<Param>,
    invoke: (CallSender<S>, Args) -> Invocation)

  /** A command class; `instantiable` is "has a public no-argument constructor that does not throw". */
  datatype ClassDef<!S> = ClassDef(
    className: string,
    command: Option<seq<string>>,
    permissible: Option<string>,
    description: Option<seq<string>>,
    subCommands: seq<ClassDef<S>>,
    instantiable: bool,
    methods: seq<MethodDef<S>>)

  /** A registered argument injector (`registerInjector` leaves `multipleArgs` false). */
  datatype Injector = Injector(target: TypeId, multipleArgs: bool)

  /**
   * A registered tab completer: `senderParam` is the first parameter type of its
   * `getCompletions` method (`None` when it has none), `complete` its result.
   */
  datatype Completer<!S> = Completer(
    senderParam: Option<TypeId>,
    complete: (CallSender<S>, Args, seq<Annotation>) -> Invocation)

  /**
   * The parser's surroundings: the platform sender class, `isAssignableFrom`, the factory's
   * injector and completer registries, the sender types `SenderTypeFactory` knows, and the
   * platform permission check.
   */
  datatype Env<!S> = Env(
    senderClass: TypeId,
    assignableFrom: (TypeId, TypeId) -> bool,
    injectors: map<TypeId, Injector>,
    senderTypes: set<TypeId>,
    completers: map<TypeId, Completer<S>>,
    hasPermission: (S, string) -> bool)

  /** One `CommandParseException` (or, for `NoProcessor`, the `NullPointerException`) per way to fail. */
  datatype ParseError =
    | NotACommand(className: string)
    | NoAliases(className: string)
    | InvalidPermissionHandler(className: string, methodName: string)
    | InvalidDescriptionHandler(className: string, methodName: string)
    | ProcessorNotPublic(className: string, methodName: string)
    | MissingAnnotations(className: string, methodName: string)
    | InvalidSender(className: string, methodName: string)
    | UnrecognizedSenderType(className: string, methodName: string)
    | MissingParameterAnnotation(index: nat)
    | CaptureNotLast(index: nat)
    | InvalidParameterType(index: nat, ptype: TypeId)
    | MissingArgumentAnnotation(index: nat)
    | NoPublicConstructor(className: string)
    | NoProcessor(className: string)
    | UnregisteredCompleter(completer: TypeId)
    | NoCompletionsMethod(completer: TypeId)
    | CompletionHandlerNotPublic(className: string, methodName: string)

  /** One argument of the built executor. */
  datatype ArgumentSpec = ArgumentSpec(injector: Injector, annotations: seq<Annotation>, defaultValue: string)

  /** What `AnnotationPlatformCommandExecutor.builder` receives; `processor` indexes the class's methods. */
  datatype ExecutorData = ExecutorData(
    senderType: TypeId, argsCapture: bool, async: bool, arguments: seq<ArgumentSpec>, processor: nat)

  /** One `TabCompleteAnnotations`: a completer, the parameter's other annotations, its sender type. */
  datatype Entry<!S> = Entry(completer: Completer<S>, annotations: seq<Annotation>, senderType: Option<TypeId>)

  /** What the tab-handler lambda closes over. */
  datatype TabData<!S> = TabData(
    flags: seq<bool>,
    entries: seq<Option<Entry<S>>>,
    handler: Option<MethodDef<S>>,
    handlerSender: Option<TypeId>)

  predicate IsProcessor<S>(m: MethodDef<S>) { m.processor.Some? }
  predicate IsPermissionHandler<S>(m: MethodDef<S>) { m.permissionHandler }
  predicate IsDescriptionHandler<S>(m: MethodDef<S>) { m.descriptionHandler }
  predicate IsCompletionHandler<S>(m: MethodDef<S>) { m.completionHandler }
  predicate Unannotated(p: Param) { |p.annotations| == 0 }
  predicate HasSenderAnn(p: Param) { SenderAnn in p.annotations }

  predicate HasCompletable(p: Param) {
    exists j | 0 <= j < |p.annotations| :: p.annotations[j].CompletableAnn?
  }

  /** The first position from `from` on whose element satisfies `p`: the "first declared method with X" loops. */
  function FirstWhere<T>(xs: seq<T>, p: T -> bool, from: nat): (r: Option<nat>)
    ensures r.Some? ==> from <= r.value < |xs| && p(xs[r.value])
    ensures r.Some? ==> forall j | from <= j < r.value :: !p(xs[j])
    ensures r.None? ==> forall j | from <= j < |xs| :: !p(xs[j])
    decreases |xs| - from
  {
    if from >= |xs| then None
    else if p(xs[from]) then Some(from)
    else FirstWhere(xs, p, from + 1)
  }

  /** `getCommandData`: the `@Command` aliases, which must exist and be non-empty. */
  function GetCommandData<S>(c: ClassDef<S>): (r: Result<seq<string>, ParseError>)
    ensures r.Success? <==> c.command.Some? && |c.command.value| > 0
    ensures r.Success? ==> r.value == c.command.value
    ensures c.command.None? ==> r == Failure(NotACommand(c.className))
  {
    if c.command.None? then Failure(NotACommand(c.className))
    else if |c.command.value| == 0 then Failure(NoAliases(c.className))
    else Success(c.command.value)
  }

  /** `isPermissionHandlerMethod`: two parameters, accepting the sender class and a `List`. */
  predicate IsHandlerMethod<S>(env: Env<S>, m: MethodDef<S>) {
    |m.params| == 2
    && env.assignableFrom(m.params[0].ptype, env.senderClass)
    && env.assignableFrom(m.params[1].ptype, LIST)
  }

  /** The `(boolean)` cast of a permission handler's result; anything that throws is `false`. */
  function AsBool(inv: Invocation): bool {
    inv.Returned? && inv.value.BoolValue? && inv.value.b
  }

  /** The `(List<String>)` cast of a handler's result; anything that throws is the empty list. */
  function AsLines(inv: Invocation): seq<string> {
    if inv.Returned? && inv.value.LinesValue? then inv.value.lines else []
  }

  /**
   * `getPermissionCheck`: `@Permissible` wins; otherwise the first `@PermissionHandler`, which must
   * be a valid handler method; otherwise null.
   */
  function GetPermissionCheck<S>(env: Env<S>, c: ClassDef<S>): Result<Option<(S, Args) -> bool>, ParseError> {
    if c.permissible.Some? then
      var node := c.permissible.value;
      Success(Some((s: S, a: Args) => env.hasPermission(s, node)))
    else match FirstWhere(c.methods, IsPermissionHandler, 0)
      case None => Success(None)
      case Some(i) =>
        var m := c.methods[i];
        if !IsHandlerMethod(env, m) then Failure(InvalidPermissionHandler(c.className, m.name))
        else Success(Some((s: S, a: Args) => AsBool(m.invoke(RawSender(s), a))))
  }

  /** `getDescriptionProvider`: `@Description` wins; otherwise the first valid `@DescriptionHandler`. */
  function GetDescriptionProvider<S>(env: Env<S>, c: ClassDef<S>): Result<Option<(S, Args) -> seq<string>>, ParseError> {
    if c.description.Some? then
      var lines := c.description.value;
      Success(Some((s: S, a: Args) => lines))
    else match FirstWhere(c.methods, IsDescriptionHandler, 0)
      case None => Success(None)
      case Some(i) =>
        var m := c.methods[i];
        if !IsHandlerMethod(env, m) then Failure(InvalidDescriptionHandler(c.className, m.name))
        else Success(Some((s: S, a: Args) => AsLines(m.invoke(RawSender(s), a))))
  }

  /** `findCommandProcessor`: the first `@CommandProcessor` method, which must be public. */
  function FindCommandProcessor<S>(c: ClassDef<S>): (r: Result<Option<nat>, ParseError>)
    ensures r.Success? && r.value.Some? ==>
      r.value == FirstWhere(c.methods, IsProcessor, 0) && c.methods[r.value.value].isPublic
    ensures r.Success? <==> (FirstWhere(c.methods, IsProcessor, 0).Some? ==> c.methods[FirstWhere(c.methods, IsProcessor, 0).value].isPublic)
  {
    match FirstWhere(c.methods, IsProcessor, 0)
    case None => Success(None)
    case Some(i) =>
      if !c.methods[i].isPublic then Failure(ProcessorNotPublic(c.className, c.methods[i].name))
      else Success(Some(i))
  }

  /** `isInvalidSenderAnnotation`: parameter 0 must carry exactly one annotation, `@Sender`. */
  predicate InvalidSenderAnnotation(params: seq<Param>) {
    |params| < 1 || |params[0].annotations| != 1 || params[0].annotations[0] != SenderAnn
  }

  /**
   * `shouldCaptureArgs`: the first non-sender parameter without annotations captures the
   * remaining tokens; it must be a `String[]` and the last parameter.
   */
  function CaptureSpec(params: seq<Param>): Result<bool, ParseError> {
    match FirstWhere(params, Unannotated, 1)
    case None => Success(false)
    case Some(i) =>
      if params[i].ptype != STRING_ARRAY then Failure(MissingParameterAnnotation(i))
      else if i != |params| - 1 then Failure(CaptureNotLast(i))
      else Success(true)
  }

  /**
   * `getArgumentAnnotationAndRemaining` over the first `k` annotations: the last `@Argument`
   * seen and, in order, every other annotation.
   */
  function SplitArgument(anns: seq<Annotation>): (r: (Option<Annotation>, seq<Annotation>))
    ensures r.0.Some? ==> r.0.value.ArgumentAnn?
  {
    if anns == [] then (None, [])
    else
      var pre := SplitArgument(anns[..|anns| - 1]);
      var x := anns[|anns| - 1];
      if x.ArgumentAnn? then (Some(x), pre.1) else (pre.0, pre.1 + [x])
  }

  /** The annotations other than `@Argument`, in order: a reference definition, read from the front. */
  function NonArgument(anns: seq<Annotation>): seq<Annotation> {
    if anns == [] then []
    else (if anns[0].ArgumentAnn? then [] else [anns[0]]) + NonArgument(anns[1..])
  }

  /** The position after the last argument parameter: the capture parameter is not an argument. */
  function ArgumentEnd(params: seq<Param>, capture: bool): nat {
    if capture && |params| > 0 then |params| - 1 else |params|
  }

  /** `buildArguments` for the parameters 1 .. k-1: each needs an injector and an `@Argument`. */
  function ArgumentsUpTo<S>(env: Env<S>, params: seq<Param>, k: nat): Result<seq<ArgumentSpec>, ParseError>
    requires k <= |params|
    decreases k
  {
    if k <= 1 then Success([])
    else
      var pre :- ArgumentsUpTo(env, params, k - 1);
      var p := params[k - 1];
      if p.ptype !in env.injectors then Failure(InvalidParameterType(k - 1, p.ptype))
      else
        var split := SplitArgument(p.annotations);
        if split.0.None? then Failure(MissingArgumentAnnotation(k - 1))
        else Success(pre + [ArgumentSpec(env.injectors[p.ptype], split.1, split.0.value.defaultValue)])
  }

  /** `getCommandExecutor`: no processor gives a null executor; otherwise every processor rule applies. */
  function GetCommandExecutor<S>(env: Env<S>, c: ClassDef<S>): Result<Option<ExecutorData>, ParseError> {
    var found :- FindCommandProcessor(c);
    if found.None? then Success(None)
    else
      var m := c.methods[found.value];
      if |m.params| == 0 then Failure(MissingAnnotations(c.className, m.name))
      else if InvalidSenderAnnotation(m.params) then Failure(InvalidSender(c.className, m.name))
      else if m.params[0].ptype !in env.senderTypes then Failure(UnrecognizedSenderType(c.className, m.name))
      else
        var capture :- CaptureSpec(m.params);
        var arguments :- ArgumentsUpTo(env, m.params, ArgumentEnd(m.params, capture));
        Success(Some(ExecutorData(m.params[0].ptype, capture, m.processor.value, arguments, found.value)))
  }

  /** `getHasTabCompleter`: length `n + 1 (+ 1 with capture)`, entry `i - 1` set for a `@Completable` parameter `i`. */
  function CompleterFlags(params: seq<Param>, capture: bool): seq<bool> {
    seq(|params| + 1 + (if capture then 1 else 0), k => 0 <= k && k + 1 < |params| && HasCompletable(params[k + 1]))
  }

  /**
   * The inner loop of `getParameterTabCompleters` over the first annotations: each `@Completable`
   * is looked up (an unregistered one fails), the last one wins, the others are kept in order.
   */
  function ScanCompletable<S>(env: Env<S>, anns: seq<Annotation>): Result<(Option<Completer<S>>, seq<Annotation>), ParseError>
  {
    if anns == [] then Success((None, []))
    else
      var pre :- ScanCompletable(env, anns[..|anns| - 1]);
      var x := anns[|anns| - 1];
      if !x.CompletableAnn? then Success((pre.0, pre.1 + [x]))
      else if x.completer !in env.completers then Failure(UnregisteredCompleter(x.completer))
      else Success((Some(env.completers[x.completer]), pre.1))
  }

  /** The entry for one parameter: null when unflagged or without a completer; `getSenderType` may fail. */
  function CompleterEntry<S>(env: Env<S>, p: Param, flagged: bool): Result<Option<Entry<S>>, ParseError> {
    if !flagged then Success(None)
    else
      var scan :- ScanCompletable(env, p.annotations);
      if scan.0.None? then Success(None)
      else match scan.0.value.senderParam
        case None => Failure(NoCompletionsMethod(CompleterName(p.annotations)))
        case Some(t) => Success(Some(Entry(scan.0.value, scan.1, if t in env.senderTypes then Some(t) else None)))
  }

  /** The class named by the last `@Completable`, for the error message. */
  function CompleterName(anns: seq<Annotation>): TypeId {
    if anns == [] then ""
    else if anns[|anns| - 1].CompletableAnn? then anns[|anns| - 1].completer
    else CompleterName(anns[..|anns| - 1])
  }

  /** `getParameterTabCompleters` for the parameters 1 .. k-1. */
  function EntriesUpTo<S>(env: Env<S>, params: seq<Param>, flags: seq<bool>, k: nat): Result<seq<Option<Entry<S>>>, ParseError>
    requires k <= |params| && |params| <= |flags| + 1
    decreases k
  {
    if k <= 1 then Success([])
    else
      var pre :- EntriesUpTo(env, params, flags, k - 1);
      var e :- CompleterEntry(env, params[k - 1], flags[k - 2]);
      Success(pre + [e])
  }

  /** `findTabHandlerMethod`: the first `@CompletionHandler` method, which must be public. */
  function FindTabHandlerMethod<S>(c: ClassDef<S>): Result<Option<MethodDef<S>>, ParseError> {
    match FirstWhere(c.methods, IsCompletionHandler, 0)
    case None => Success(None)
    case Some(i) =>
      if !c.methods[i].isPublic then Failure(CompletionHandlerNotPublic(c.className, c.methods[i].name))
      else Success(Some(c.methods[i]))
  }

  /** Parameter `i` is the first one carrying `@Sender`. */
  predicate FirstSenderAt(params: seq<Param>, i: int) {
    0 <= i < |params| && HasSenderAnn(params[i]) && forall j | 0 <= j < i :: !HasSenderAnn(params[j])
  }

  /**
   * `findTabHandlerSenderType`: the sender type of the first parameter carrying `@Sender`, if
   * registered; no handler, no such parameter or an unregistered type give null.
   */
  function FindTabHandlerSenderType<S>(env: Env<S>, h: Option<MethodDef<S>>): (r: Option<TypeId>)
    ensures r.Some? ==> h.Some? && r.value in env.senderTypes
    ensures r.Some? ==> exists i :: FirstSenderAt(h.value.params, i) && h.value.params[i].ptype == r.value
    ensures h.Some? && (exists i :: FirstSenderAt(h.value.params, i) && h.value.params[i].ptype in env.senderTypes) ==> r.Some?
  {
    if h.None? then None
    else match FirstWhere(h.value.params, HasSenderAnn, 0)
      case None => None
      case Some(i) => if h.value.params[i].ptype in env.senderTypes then Some(h.value.params[i].ptype) else None
  }

  /**
   * `getTabHandler`: everything the lambda needs. With no processor the Java code dereferences
   * null, so the build fails.
   */
  function GetTabHandler<S>(env: Env<S>, c: ClassDef<S>): Result<TabData<S>, ParseError> {
    var found :- FindCommandProcessor(c);
    if found.None? then Failure(NoProcessor(c.className))
    else
      var params := c.methods[found.value].params;
      var capture :- CaptureSpec(params);
      var flags := CompleterFlags(params, capture);
      var entries :- EntriesUpTo(env, params, flags, |params|);
      var handler :- FindTabHandlerMethod(c);
      Success(TabData(flags, entries, handler, FindTabHandlerSenderType(env, handler)))
  }

  /**
   * The tab-handler lambda: at position max(0, |args| - 1) a flagged parameter's completer answers;
   * otherwise the completion handler, if any. A null sender type or anything thrown gives the
   * empty list.
   */
  function TabHandlerApply<S>(d: TabData<S>, sender: S, args: Args): seq<string> {
    var position := if |args| - 1 > 0 then |args| - 1 else 0;
    if position < |d.flags| && d.flags[position] then
      if position < |d.entries| && d.entries[position].Some? && d.entries[position].value.senderType.Some? then
        var e := d.entries[position].value;
        AsLines(e.completer.complete(AdaptedSender(e.senderType.value, sender), args, e.annotations))
      else []
    else if d.handler.None? || d.handlerSender.None? then []
    else AsLines(d.handler.value.invoke(AdaptedSender(d.handlerSender.value, sender), args))
  }

  /** `parseCommand`: the steps in the Java order, each one's failure ending the build. */
  function ParseCommand<S>(env: Env<S>, c: ClassDef<S>): Result<Node<S, ExecutorData>, ParseError>
    decreases c, 1, 0
  {
    var aliases :- GetCommandData(c);
    var permission :- GetPermissionCheck(env, c);
    var description :- GetDescriptionProvider(env, c);
    var executor :- GetCommandExecutor(env, c);
    var subs :- ParseSubCommands(env, c, 0);
    var tab :- GetTabHandler(env, c);
    Success(Node(aliases[0], aliases, permission, Some((s: S) => [NO_PERMISSION_MESSAGE]),
                 description, executor, subs, Some((s: S, a: Args) => TabHandlerApply(tab, s, a))))
  }

  /** `getSubCommands`: each class, in declared order, is instantiated and parsed. */
  function ParseSubCommands<S>(env: Env<S>, c: ClassDef<S>, from: nat): Result<seq<Node<S, ExecutorData>>, ParseError>
    decreases c, 0, |c.subCommands| - from
  {
    if from >= |c.subCommands| then Success([])
    else
      var sub := c.subCommands[from];
      if !sub.instantiable then Failure(NoPublicConstructor(sub.className))
      else
        var n :- ParseCommand(env, sub);
        var rest :- ParseSubCommands(env, c, from + 1);
        Success([n] + rest)
  }

  // ---------------------------------------------------------------------------------------------
  // The loops, proved against the functions above.

  /** `shouldCaptureArgs`. */
  method ShouldCaptureArgs(params: seq<Param>) returns (r: Result<bool, ParseError>)
    ensures r == CaptureSpec(params)
  {
    var i := 1;
    while i < |params|
      invariant 1 <= i <= |params| || (|params| == 0 && i == 1)
      invariant forall j | 1 <= j < i :: !Unannotated(params[j])
    {
      if |params[i].annotations| == 0 {
        assert FirstWhere(params, Unannotated, 1) == Some(i);
        if params[i].ptype != STRING_ARRAY {
          return Failure(MissingParameterAnnotation(i));
        }
        if i != |params| - 1 {
          return Failure(CaptureNotLast(i));
        }
        return Success(true);
      }
      i := i + 1;
    }
    return Success(false);
  }

  /** `getArgumentAnnotationAndRemaining`. */
  method GetArgumentAnnotationAndRemaining(anns: seq<Annotation>) returns (argument: Option<Annotation>, others: seq<Annotation>)
    ensures (argument, others) == SplitArgument(anns)
  {
    argument := None;
    others := [];
    var i := 0;
    while i < |anns|
      invariant 0 <= i <= |anns|
      invariant (argument, others) == SplitArgument(anns[..i])
    {
      assert anns[..i + 1][..i] == anns[..i];
      if anns[i].ArgumentAnn? {
        argument := Some(anns[i]);
      } else {
        others := others + [anns[i]];
      }
      i := i + 1;
    }
    assert anns[..i] == anns;
  }

  /** Once the prefix fails, every longer prefix fails the same way. */
  lemma {:induction false} ArgumentsFailureSticks<S>(env: Env<S>, params: seq<Param>, k: nat, j: nat)
    requires k <= j <= |params| && ArgumentsUpTo(env, params, k).Failure?
    ensures ArgumentsUpTo(env, params, j) == ArgumentsUpTo(env, params, k)
    decreases j
  {
    if j > k {
      ArgumentsFailureSticks(env, params, k, j - 1);
    }
  }

  /** `buildArguments`. */
  method BuildArguments<S>(env: Env<S>, params: seq<Param>, capture: bool) returns (r: Result<seq<ArgumentSpec>, ParseError>)
    ensures r == ArgumentsUpTo(env, params, ArgumentEnd(params, capture))
  {
    var end := ArgumentEnd(params, capture);
    var arguments: seq<ArgumentSpec> := [];
    var i := 1;
    while i < end
      invariant 1 <= i && (i <= end || end <= 1)
      invariant ArgumentsUpTo(env, params, if i <= end then i else end) == Success(arguments) || end <= 1
      invariant end <= 1 ==> arguments == []
    {
      var p := params[i];
      if p.ptype !in env.injectors {
        ArgumentsFailureSticks(env, params, i + 1, end);
        return Failure(InvalidParameterType(i, p.ptype));
      }
      var argument, others := GetArgumentAnnotationAndRemaining(p.annotations);
      if argument.None? {
        ArgumentsFailureSticks(env, params, i + 1, end);
        return Failure(MissingArgumentAnnotation(i));
      }
      arguments := arguments + [ArgumentSpec(env.injectors[p.ptype], others, argument.value.defaultValue)];
      i := i + 1;
    }
    return Success(arguments);
  }

  /** `getHasTabCompleter`: fills a fresh `boolean[]`. */
  method GetHasTabCompleter(params: seq<Param>, capture: bool) returns (flags: array<bool>)
    ensures flags[..] == CompleterFlags(params, capture)
  {
    flags := new bool[|params| + 1 + (if capture then 1 else 0)](_ => false);
    var i := 1;
    while i < |params|
      invariant 1 <= i <= |params| || (|params| == 0 && i == 1)
      invariant forall k | 0 <= k < flags.Length :: flags[k] == (k + 1 < i && HasCompletable(params[k + 1]))
    {
      var j := 0;
      while j < |params[i].annotations|
        invariant 0 <= j <= |params[i].annotations|
        invariant forall y | 0 <= y < j :: !params[i].annotations[y].CompletableAnn?
        invariant forall k | 0 <= k < flags.Length :: flags[k] == (k + 1 < i && HasCompletable(params[k + 1]))
      {
        if params[i].annotations[j].CompletableAnn? {
          flags[i - 1] := true;
          break;
        }
        j := j + 1;
      }
      i := i + 1;
    }
  }

  lemma {:induction false} ScanFailureSticks<S>(env: Env<S>, anns: seq<Annotation>, k: nat, j: nat)
    requires k <= j <= |anns| && ScanCompletable(env, anns[..k]).Failure?
    ensures ScanCompletable(env, anns[..j]) == ScanCompletable(env, anns[..k])
    decreases j
  {
    if j > k {
      ScanFailureSticks(env, anns, k, j - 1);
      assert anns[..j][..j - 1] == anns[..j - 1];
    }
  }

  lemma {:induction false} EntriesFailureSticks<S>(env: Env<S>, params: seq<Param>, flags: seq<bool>, k: nat, j: nat)
    requires k <= j <= |params| <= |flags| + 1 && EntriesUpTo(env, params, flags, k).Failure?
    ensures EntriesUpTo(env, params, flags, j) == EntriesUpTo(env, params, flags, k)
    decreases j
  {
    if j > k {
      EntriesFailureSticks(env, params, flags, k, j - 1);
    }
  }

  /** `getParameterTabCompleters` with `getCompleterInstance` and `getSenderType` inlined. */
  method GetParameterTabCompleters<S>(env: Env<S>, params: seq<Param>, flags: seq<bool>) returns (r: Result<seq<Option<Entry<S>>>, ParseError>)
    requires |params| <= |flags| + 1
    ensures r == EntriesUpTo(env, params, flags, |params|)
  {
    var entries: seq<Option<Entry<S>>> := [];
    var i := 1;
    while i < |params|
      invariant 1 <= i <= |params| || (|params| == 0 && i == 1)
      invariant EntriesUpTo(env, params, flags, if |params| == 0 then 0 else i) == Success(entries)
    {
      var p := params[i];
      if flags[i - 1] {
        var others: seq<Annotation> := [];
        var completable: Option<Completer<S>> := None;
        var j := 0;
        while j < |p.annotations|
          invariant 0 <= j <= |p.annotations|
          invariant ScanCompletable(env, p.annotations[..j]) == Success((completable, others))
        {
          var x := p.annotations[j];
          assert p.annotations[..j + 1][..j] == p.annotations[..j];
          if !x.CompletableAnn? {
            others := others + [x];
          } else {
            if x.completer !in env.completers {
              ScanFailureSticks(env, p.annotations, j + 1, |p.annotations|);
              assert p.annotations[..|p.annotations|] == p.annotations;
              EntriesFailureSticks(env, params, flags, i + 1, |params|);
              return Failure(UnregisteredCompleter(x.completer));
            }
            completable := Some(env.completers[x.completer]);
          }
          j := j + 1;
        }
        assert p.annotations[..j] == p.annotations;
        if completable.None? {
          entries := entries + [None];
        } else {
          var sp := completable.value.senderParam;
          if sp.None? {
            EntriesFailureSticks(env, params, flags, i + 1, |params|);
            return Failure(NoCompletionsMethod(CompleterName(p.annotations)));
          }
          var senderType := if sp.value in env.senderTypes then Some(sp.value) else None;
          entries := entries + [Some(Entry(completable.value, others, senderType))];
        }
      } else {
        entries := entries + [None];
      }
      i := i + 1;
    }
    return Success(entries);
  }

  // ---------------------------------------------------------------------------------------------
  // What the build guarantees.

  /** Without `@Command`, or with no alias in it, nothing is built. */
  lemma ParseNeedsCommand<S>(env: Env<S>, c: ClassDef<S>)
    ensures c.command.None? ==> ParseCommand(env, c) == Failure(NotACommand(c.className))
    ensures c.command == Some([]) ==> ParseCommand(env, c) == Failure(NoAliases(c.className))
  {
  }

  /** One step of `getSubCommands`: the class at `from`, then the rest. */
  lemma ParseSubCommandsStep<S>(env: Env<S>, c: ClassDef<S>, from: nat)
    requires from < |c.subCommands|
    ensures var sub := c.subCommands[from];
      var head := ParseCommand(env, sub);
      var tail := ParseSubCommands(env, c, from + 1);
      ParseSubCommands(env, c, from) ==
        if !sub.instantiable then Failure(NoPublicConstructor(sub.className))
        else if head.Failure? then Failure(head.error)
        else if tail.Failure? then Failure(tail.error)
        else Success([head.value] + tail.value)
  {
  }

  /** The sub-commands build exactly when every class is instantiable and builds. */
  lemma {:induction false} ParseSubCommandsIff<S>(env: Env<S>, c: ClassDef<S>, from: nat)
    requires from <= |c.subCommands|
    ensures ParseSubCommands(env, c, from).Success? <==>
      forall k | from <= k < |c.subCommands| :: c.subCommands[k].instantiable && ParseCommand(env, c.subCommands[k]).Success?
    decreases |c.subCommands| - from
  {
    if from < |c.subCommands| {
      var sub := c.subCommands[from];
      ParseSubCommandsIff(env, c, from + 1);
      ParseSubCommandsStep(env, c, from);
      if forall k | from <= k < |c.subCommands| :: c.subCommands[k].instantiable && ParseCommand(env, c.subCommands[k]).Success? {
        assert sub.instantiable && ParseCommand(env, sub).Success?;
      } else if sub.instantiable && ParseCommand(env, sub).Success? {
        var k :| from <= k < |c.subCommands| && !(c.subCommands[k].instantiable && ParseCommand(env, c.subCommands[k]).Success?);
        assert k != from;
      }
    }
  }

  /** A successful build of the sub-commands gives one node per class, in declared order. */
  lemma {:induction false} ParseSubCommandsInOrder<S>(env: Env<S>, c: ClassDef<S>, from: nat)
    requires from <= |c.subCommands| && ParseSubCommands(env, c, from).Success?
    ensures |ParseSubCommands(env, c, from).value| == |c.subCommands| - from
    ensures forall k | 0 <= k < |c.subCommands| - from ::
      ParseCommand(env, c.subCommands[from + k]) == Success(ParseSubCommands(env, c, from).value[k])
    decreases |c.subCommands| - from
  {
    if from < |c.subCommands| {
      var sub := c.subCommands[from];
      var head := ParseCommand(env, sub);
      var tail := ParseSubCommands(env, c, from + 1);
      var r := ParseSubCommands(env, c, from);
      ParseSubCommandsStep(env, c, from);
      ParseSubCommandsInOrder(env, c, from + 1);
      forall k | 0 <= k < |c.subCommands| - from
        ensures ParseCommand(env, c.subCommands[from + k]) == Success(r.value[k])
      {
        if k > 0 {
          assert r.value[k] == tail.value[k - 1];
          assert from + k == (from + 1) + (k - 1);
        }
      }
    }
  }

  /** A build succeeds exactly when every step does, and then assembles their results. */
  lemma ParseCommandStep<S>(env: Env<S>, c: ClassDef<S>)
    ensures ParseCommand(env, c).Success? <==>
      GetCommandData(c).Success? && GetPermissionCheck(env, c).Success? && GetDescriptionProvider(env, c).Success?
      && GetCommandExecutor(env, c).Success? && ParseSubCommands(env, c, 0).Success? && GetTabHandler(env, c).Success?
    ensures ParseCommand(env, c).Success? ==>
      var aliases := GetCommandData(c).value;
      var tab := GetTabHandler(env, c).value;
      ParseCommand(env, c).value == Node(aliases[0], aliases, GetPermissionCheck(env, c).value,
        Some((s: S) => [NO_PERMISSION_MESSAGE]), GetDescriptionProvider(env, c).value, GetCommandExecutor(env, c).value,
        ParseSubCommands(env, c, 0).value, Some((s: S, a: Args) => TabHandlerApply(tab, s, a)))
  {
  }

  /**
   * What a successful build produces: the first alias as name, all aliases in order, the fixed
   * no-permission line, the derived permission/description/executor, the sub-commands built from
   * the sub-command classes in order, and the tab-handler lambda; a processor exists.
   */
  lemma ParseCommandShape<S>(env: Env<S>, c: ClassDef<S>, sender: S, args: Args)
    requires ParseCommand(env, c).Success?
    ensures c.command.Some? && |c.command.value| > 0
    ensures var n := ParseCommand(env, c).value;
      n.name == c.command.value[0] && n.aliases == c.command.value
      && n.noPermissionProvider.Some? && n.noPermissionProvider.value(sender) == [NO_PERMISSION_MESSAGE]
      && n.permissionCheck == GetPermissionCheck(env, c).value
      && n.descriptionProvider == GetDescriptionProvider(env, c).value
      && n.executor == GetCommandExecutor(env, c).value && n.executor.Some?
      && n.tabHandler.Some? && n.tabHandler.value(sender, args) == TabHandlerApply(GetTabHandler(env, c).value, sender, args)
      && |n.subCommands| == |c.subCommands|
      && forall k | 0 <= k < |c.subCommands| ::
           c.subCommands[k].instantiable && ParseCommand(env, c.subCommands[k]) == Success(n.subCommands[k])
  {
    ParseCommandStep(env, c);
    ParseSubCommandsIff(env, c, 0);
    ParseSubCommandsInOrder(env, c, 0);
    ProcessorRules(env, c);
  }

  /** `@Permissible` takes precedence over any handler, and defers to the platform check. */
  lemma PermissibleTakesPrecedence<S>(env: Env<S>, c: ClassDef<S>, sender: S, args: Args)
    requires c.permissible.Some?
    ensures GetPermissionCheck(env, c).Success? && GetPermissionCheck(env, c).value.Some?
    ensures GetPermissionCheck(env, c).value.value(sender, args) == env.hasPermission(sender, c.permissible.value)
  {
  }

  /**
   * Without `@Permissible` the first `@PermissionHandler` decides: an invalid one fails the build,
   * a valid one's boolean result is the check, and one that throws denies.
   */
  lemma PermissionHandlerRule<S>(env: Env<S>, c: ClassDef<S>, i: nat, sender: S, args: Args)
    requires c.permissible.None? && FirstWhere(c.methods, IsPermissionHandler, 0) == Some(i)
    ensures GetPermissionCheck(env, c).Failure? <==> !IsHandlerMethod(env, c.methods[i])
    ensures GetPermissionCheck(env, c).Success? ==>
      GetPermissionCheck(env, c).value.Some? &&
      (GetPermissionCheck(env, c).value.value(sender, args) <==>
         c.methods[i].invoke(RawSender(sender), args) == Returned(BoolValue(true)))
  {
  }

  /** With no permission rule at all the check is null, so the built node lets everyone through. */
  lemma NoPermissionRuleAllowsAll<S>(env: Env<S>, c: ClassDef<S>, sender: S, args: Args)
    requires c.permissible.None? && forall j | 0 <= j < |c.methods| :: !c.methods[j].permissionHandler
    requires ParseCommand(env, c).Success?
    ensures GetPermissionCheck(env, c) == Success(None)
    ensures CheckPermission(ParseCommand(env, c).value, sender, args)
  {
    assert FirstWhere(c.methods, IsPermissionHandler, 0).None?;
  }

  /** The description follows the same precedence; a handler that throws describes nothing. */
  lemma DescriptionRule<S>(env: Env<S>, c: ClassDef<S>, sender: S, args: Args)
    ensures c.description.Some? ==>
      GetDescriptionProvider(env, c).Success? && GetDescriptionProvider(env, c).value.Some? &&
      GetDescriptionProvider(env, c).value.value(sender, args) == c.description.value
    ensures c.description.None? && FirstWhere(c.methods, IsDescriptionHandler, 0).Some? ==>
      var m := c.methods[FirstWhere(c.methods, IsDescriptionHandler, 0).value];
      (GetDescriptionProvider(env, c).Failure? <==> !IsHandlerMethod(env, m)) &&
      (GetDescriptionProvider(env, c).Success? && m.invoke(RawSender(sender), args) == Threw ==>
         GetDescriptionProvider(env, c).value.value(sender, args) == [])
    ensures c.description.None? && FirstWhere(c.methods, IsDescriptionHandler, 0).None? ==>
      GetDescriptionProvider(env, c) == Success(None)
  {
  }

  /**
   * The processor rules: the first `@CommandProcessor` must be public, have parameters, start
   * with a sole `@Sender` of a registered sender type; a class without one gets no executor but
   * does not build.
   */
  lemma ProcessorRules<S>(env: Env<S>, c: ClassDef<S>)
    ensures FirstWhere(c.methods, IsProcessor, 0).None? ==>
      GetCommandExecutor(env, c) == Success(None) && ParseCommand(env, c).Failure?
    ensures FirstWhere(c.methods, IsProcessor, 0).Some? ==>
      var m := c.methods[FirstWhere(c.methods, IsProcessor, 0).value];
      (!m.isPublic ==> GetCommandExecutor(env, c) == Failure(ProcessorNotPublic(c.className, m.name))) &&
      (m.isPublic && |m.params| == 0 ==> GetCommandExecutor(env, c) == Failure(MissingAnnotations(c.className, m.name))) &&
      (m.isPublic && InvalidSenderAnnotation(m.params) && |m.params| > 0 ==>
         GetCommandExecutor(env, c) == Failure(InvalidSender(c.className, m.name))) &&
      (m.isPublic && !InvalidSenderAnnotation(m.params) && m.params[0].ptype !in env.senderTypes ==>
         GetCommandExecutor(env, c) == Failure(UnrecognizedSenderType(c.className, m.name)))
  {
  }

  /**
   * Capture holds exactly when some non-sender parameter is unannotated; the first such one must
   * be the last parameter and a `String[]`, otherwise the build fails.
   */
  lemma CaptureRule(params: seq<Param>)
    ensures CaptureSpec(params).Success? ==>
      (CaptureSpec(params).value <==> exists i | 1 <= i < |params| :: Unannotated(params[i]))
    ensures CaptureSpec(params) == Success(true) ==>
      params[|params| - 1].ptype == STRING_ARRAY && Unannotated(params[|params| - 1]) &&
      forall j | 1 <= j < |params| - 1 :: !Unannotated(params[j])
    ensures forall i | 1 <= i < |params| && Unannotated(params[i]) && (params[i].ptype != STRING_ARRAY || i != |params| - 1) ::
      (forall j | 1 <= j < i :: !Unannotated(params[j])) ==> CaptureSpec(params).Failure?
  {
    forall i | 1 <= i < |params| && Unannotated(params[i]) && (params[i].ptype != STRING_ARRAY || i != |params| - 1)
      ensures (forall j | 1 <= j < i :: !Unannotated(params[j])) ==> CaptureSpec(params).Failure?
    {
      if forall j | 1 <= j < i :: !Unannotated(params[j]) {
        assert FirstWhere(params, Unannotated, 1) == Some(i);
      }
    }
  }

  /** The split keeps the other annotations in order, and its `@Argument` is the last one present. */
  lemma SplitArgumentMeaning(anns: seq<Annotation>)
    ensures SplitArgument(anns).1 == NonArgument(anns)
    ensures SplitArgument(anns).0.Some? <==> exists j | 0 <= j < |anns| :: anns[j].ArgumentAnn?
    ensures SplitArgument(anns).0.Some? ==> exists j | 0 <= j < |anns| ::
      anns[j] == SplitArgument(anns).0.value && forall k | j < k < |anns| :: !anns[k].ArgumentAnn?
  {
    SplitArgumentRest(anns);
    SplitArgumentFound(anns);
    SplitArgumentLast(anns);
  }

  lemma {:induction false} SplitArgumentRest(anns: seq<Annotation>)
    ensures SplitArgument(anns).1 == NonArgument(anns)
  {
    if anns != [] {
      var init := anns[..|anns| - 1];
      var x := anns[|anns| - 1];
      SplitArgumentRest(init);
      NonArgumentAppend(init, [x]);
      assert anns == init + [x];
      assert NonArgument([x]) == if x.ArgumentAnn? then [] else [x] by {
        assert [x][1..] == [];
      }
    }
  }

  lemma {:induction false} SplitArgumentFound(anns: seq<Annotation>)
    ensures SplitArgument(anns).0.Some? <==> exists j | 0 <= j < |anns| :: anns[j].ArgumentAnn?
  {
    if anns != [] {
      var init := anns[..|anns| - 1];
      SplitArgumentFound(init);
      if exists j | 0 <= j < |anns| :: anns[j].ArgumentAnn? {
        var j :| 0 <= j < |anns| && anns[j].ArgumentAnn?;
        if j < |init| {
          assert init[j] == anns[j];
        }
      }
      if exists j | 0 <= j < |init| :: init[j].ArgumentAnn? {
        var j :| 0 <= j < |init| && init[j].ArgumentAnn?;
        assert anns[j] == init[j];
      }
    }
  }

  lemma {:induction false} SplitArgumentLast(anns: seq<Annotation>)
    ensures SplitArgument(anns).0.Some? ==> exists j | 0 <= j < |anns| ::
      anns[j] == SplitArgument(anns).0.value && forall k | j < k < |anns| :: !anns[k].ArgumentAnn?
  {
    if anns != [] {
      var init := anns[..|anns| - 1];
      var x := anns[|anns| - 1];
      var found := SplitArgument(anns).0;
      assert found == if x.ArgumentAnn? then Some(x) else SplitArgument(init).0;
      if x.ArgumentAnn? {
        assert anns[|anns| - 1] == found.value;
      } else if found.Some? {
        SplitArgumentLast(init);
        var j :| 0 <= j < |init| && init[j] == found.value && forall k | j < k < |init| :: !init[k].ArgumentAnn?;
        assert anns[j] == init[j];
        assert forall k | j < k < |anns| :: anns[k] == if k < |init| then init[k] else x;
      }
    }
  }

  lemma {:induction false} NonArgumentAppend(a: seq<Annotation>, b: seq<Annotation>)
    ensures NonArgument(a + b) == NonArgument(a) + NonArgument(b)
  {
    if a == [] {
      assert a + b == b;
    } else {
      assert (a + b)[0] == a[0];
      assert (a + b)[1..] == a[1..] + b;
      NonArgumentAppend(a[1..], b);
    }
  }

  /**
   * `buildArguments` builds exactly when each parameter 1 .. k-1 has an injector and an
   * `@Argument`, giving one argument per such parameter, in order, with its injector, its other
   * annotations and its default value.
   */
  lemma {:induction false} ArgumentsShape<S>(env: Env<S>, params: seq<Param>, k: nat)
    requires k <= |params|
    ensures ArgumentsUpTo(env, params, k).Success? <==>
      forall i | 1 <= i < k :: params[i].ptype in env.injectors && SplitArgument(params[i].annotations).0.Some?
    ensures ArgumentsUpTo(env, params, k).Success? ==>
      var r := ArgumentsUpTo(env, params, k).value;
      |r| == (if k <= 1 then 0 else k - 1) &&
      forall j | 0 <= j < |r| ::
        r[j].injector == env.injectors[params[j + 1].ptype] &&
        r[j].annotations == NonArgument(params[j + 1].annotations) &&
        r[j].defaultValue == SplitArgument(params[j + 1].annotations).0.value.defaultValue
    decreases k
  {
    if k > 1 {
      ArgumentsShape(env, params, k - 1);
      SplitArgumentMeaning(params[k - 1].annotations);
      var r := ArgumentsUpTo(env, params, k);
      if r.Success? {
        var pre := ArgumentsUpTo(env, params, k - 1).value;
        assert r.value[..k - 2] == pre;
      }
    }
  }

  /**
   * The flag array has `n + 1 (+ 1)` entries and position `p` is flagged exactly when parameter
   * `p + 1` is `@Completable`; so token `p` completes parameter `p + 1`.
   */
  lemma CompleterFlagsPositions(params: seq<Param>, capture: bool, p: nat)
    ensures |CompleterFlags(params, capture)| == |params| + 1 + (if capture then 1 else 0)
    ensures p < |CompleterFlags(params, capture)| ==>
      (CompleterFlags(params, capture)[p] <==> p + 1 < |params| && HasCompletable(params[p + 1]))
  {
  }

  /** A scan fails on an unregistered completer, and finds one exactly when a `@Completable` is present. */
  lemma {:induction false} ScanCompletableMeaning<S>(env: Env<S>, anns: seq<Annotation>)
    ensures (exists j | 0 <= j < |anns| :: anns[j].CompletableAnn? && anns[j].completer !in env.completers) ==>
      ScanCompletable(env, anns).Failure?
    ensures ScanCompletable(env, anns).Success? ==>
      (ScanCompletable(env, anns).value.0.Some? <==> exists j | 0 <= j < |anns| :: anns[j].CompletableAnn?)
  {
    if anns != [] {
      var init := anns[..|anns| - 1];
      ScanCompletableMeaning(env, init);
      forall j | 0 <= j < |init| ensures init[j] == anns[j] {}
      if exists j | 0 <= j < |anns| :: anns[j].CompletableAnn? && anns[j].completer !in env.completers {
        var j :| 0 <= j < |anns| && anns[j].CompletableAnn? && anns[j].completer !in env.completers;
        if j < |init| {
          assert init[j].CompletableAnn? && init[j].completer !in env.completers;
        }
      }
      if ScanCompletable(env, anns).Success? && exists j | 0 <= j < |anns| :: anns[j].CompletableAnn? {
        var j :| 0 <= j < |anns| && anns[j].CompletableAnn?;
        if j < |init| {
          assert init[j].CompletableAnn?;
        }
      }
    }
  }

  /**
   * The completer list has one entry per non-sender parameter; a flagged `@Completable` parameter
   * gets a completer, every other parameter null.
   */
  lemma {:induction false} EntriesShape<S>(env: Env<S>, params: seq<Param>, capture: bool, k: nat)
    requires k <= |params|
    ensures var flags := CompleterFlags(params, capture);
      EntriesUpTo(env, params, flags, k).Success? ==>
        var es := EntriesUpTo(env, params, flags, k).value;
        |es| == (if k <= 1 then 0 else k - 1) &&
        forall j | 0 <= j < |es| :: (es[j].Some? <==> HasCompletable(params[j + 1]))
    decreases k
  {
    var flags := CompleterFlags(params, capture);
    if k > 1 {
      EntriesShape(env, params, capture, k - 1);
      var p := params[k - 1];
      assert flags[k - 2] == HasCompletable(p);
      ScanCompletableMeaning(env, p.annotations);
      var r := EntriesUpTo(env, params, flags, k);
      if r.Success? {
        var pre := EntriesUpTo(env, params, flags, k - 1).value;
        assert r.value[..k - 2] == pre;
      }
    }
  }

  /** A flagged parameter whose `@Completable` names an unregistered completer fails the build. */
  lemma UnregisteredCompleterFails<S>(env: Env<S>, params: seq<Param>, capture: bool, i: nat, j: nat)
    requires 1 <= i < |params| && j < |params[i].annotations|
    requires params[i].annotations[j].CompletableAnn? && params[i].annotations[j].completer !in env.completers
    ensures EntriesUpTo(env, params, CompleterFlags(params, capture), |params|).Failure?
  {
    var flags := CompleterFlags(params, capture);
    ScanCompletableMeaning(env, params[i].annotations);
    if EntriesUpTo(env, params, flags, i).Failure? {
      EntriesFailureSticks(env, params, flags, i, |params|);
    } else {
      assert flags[i - 1];
      EntriesFailureSticks(env, params, flags, i + 1, |params|);
    }
  }

  /** In a built tab handler every flagged position has its completer. */
  lemma FlaggedPositionsHaveEntries<S>(env: Env<S>, c: ClassDef<S>)
    requires GetTabHandler(env, c).Success?
    ensures var d := GetTabHandler(env, c).value;
      forall p | 0 <= p < |d.flags| && d.flags[p] :: p < |d.entries| && d.entries[p].Some?
  {
    var found := FindCommandProcessor(c).value;
    var params := c.methods[found.value].params;
    var capture := CaptureSpec(params).value;
    EntriesShape(env, params, capture, |params|);
  }

  /**
   * The tab handler: a flagged position answers with that completer alone; otherwise no
   * completion handler means no completions, and a handler's list is passed on; whatever throws
   * gives the empty list.
   */
  lemma TabHandlerRules<S>(d: TabData<S>, sender: S, args: Args)
    ensures var p := if |args| == 0 then 0 else |args| - 1;
      (p < |d.flags| && d.flags[p] && p < |d.entries| && d.entries[p].Some? && d.entries[p].value.senderType.Some? ==>
         TabHandlerApply(d, sender, args) ==
           AsLines(d.entries[p].value.completer.complete(
             AdaptedSender(d.entries[p].value.senderType.value, sender), args, d.entries[p].value.annotations)))
      && (!(p < |d.flags| && d.flags[p]) && d.handler.None? ==> TabHandlerApply(d, sender, args) == [])
      && (!(p < |d.flags| && d.flags[p]) && d.handler.Some? && d.handlerSender.Some? ==>
         TabHandlerApply(d, sender, args) ==
           AsLines(d.handler.value.invoke(AdaptedSender(d.handlerSender.value, sender), args)))
      && (!(p < |d.flags| && d.flags[p]) && d.handler.Some? &&
          (d.handlerSender.None? || d.handler.value.invoke(AdaptedSender(d.handlerSender.value, sender), args) == Threw) ==>
         TabHandlerApply(d, sender, args) == [])
  {
  }

  /** Only the first `@CompletionHandler` is used, and a non-public one fails. */
  lemma FirstCompletionHandler<S>(c: ClassDef<S>, i: nat)
    requires i < |c.methods| && c.methods[i].completionHandler
    requires forall j | 0 <= j < i :: !c.methods[j].completionHandler
    ensures c.methods[i].isPublic ==> FindTabHandlerMethod(c) == Success(Some(c.methods[i]))
    ensures !c.methods[i].isPublic ==> FindTabHandlerMethod(c).Failure?
  {
    assert FirstWhere(c.methods, IsCompletionHandler, 0) == Some(i);
  }

  /** Only the first `@CommandProcessor` is used. */
  lemma FirstProcessor<S>(env: Env<S>, c: ClassDef<S>, i: nat)
    requires i < |c.methods| && c.methods[i].processor.Some? && c.methods[i].isPublic
    requires forall j | 0 <= j < i :: c.methods[j].processor.None?
    ensures FindCommandProcessor(c) == Success(Some(i))
    ensures GetCommandExecutor(env, c).Success? && GetCommandExecutor(env, c).value.Some? ==>
      GetCommandExecutor(env, c).value.value.processor == i &&
      GetCommandExecutor(env, c).value.value.async == c.methods[i].processor.value
  {
    assert FirstWhere(c.methods, IsProcessor, 0) == Some(i);
  }
}
