/** The per-call policy by which the recorded fluent-call chain of a query
    builder expression is replayed, the replay itself as a fold over the
    chain, and the laws that describe its outcome. Argument expressions
    are left abstract through the type parameter `E`. */
module ReplayPolicy {
  import opened Wrappers
  import opened Ascii
  import opened DoctrineQueryBuilder

  /** The name of a recorded call: a plain identifier, or any other
      expression (a dynamic `$qb->{$name}()` call). */
  datatype CallName = Identifier(id: string) | NonIdentifier

  /** One recorded call of the chain, with its argument expressions. */
  datatype MethodCall<E> = MethodCall(name: CallName, args: seq<E>)

  /** Resolves a call's argument expressions in the analysis scope; `None`
      stands for the "dynamic argument" exception. */
  type ArgsProcessor<!E> = (string, seq<E>) -> Option<seq<Value>>

  /** Whether the builder has a method of the given name (`method_exists`). */
  type MethodExists = string -> bool

  const ParameterBindingNames: seq<string> := ["setparameter", "setparameters"]
  const FirstResultOffset: int := 0
  const MaxResultsLimit: int := 10

  /** What replay does with one call. */
  datatype Action =
    | Skip
    | SetFirstResultZero
    | SetMaxResultsTen
    | Process(methodName: string)

  /** The policy, checked in priority order: non-identifier names, then
      parameter binding, then the offset and limit normalisations, then
      existence on the builder. */
  function Classify<E>(call: MethodCall<E>, hasMethod: MethodExists): (a: Action)
    ensures call.name.NonIdentifier? ==> a == Skip
    ensures call.name.Identifier? && ToLower(call.name.id) in ParameterBindingNames ==> a == Skip
    ensures a == SetFirstResultZero <==>
              call.name.Identifier? && ToLower(call.name.id) == "setfirstresult"
    ensures a == SetMaxResultsTen <==>
              call.name.Identifier? && ToLower(call.name.id) == "setmaxresults"
    ensures a.Process? <==>
              call.name.Identifier? && hasMethod(call.name.id) &&
              ToLower(call.name.id) !in {"setparameter", "setparameters", "setfirstresult", "setmaxresults"}
    ensures a.Process? ==> a.methodName == call.name.id
  {
    match call.name
    case NonIdentifier => Skip
    case Identifier(methodName) =>
      var lowerMethodName := ToLower(methodName);
      if lowerMethodName in ParameterBindingNames then Skip
      else if lowerMethodName == "setfirstresult" then SetFirstResultZero
      else if lowerMethodName == "setmaxresults" then SetMaxResultsTen
      else if !hasMethod(methodName) then Skip
      else Process(methodName)
  }

  const FirstResultCall: AppliedCall := AppliedCall(SetFirstResultName, [IntValue(FirstResultOffset)])
  const MaxResultsCall: AppliedCall := AppliedCall(SetMaxResultsName, [IntValue(MaxResultsLimit)])

  /** One replay step on the builder's log; `None` aborts the replay. It
      aborts exactly for an unresolvable call; otherwise it appends exactly
      that call's effect. */
  function Step<E>(log: seq<AppliedCall>, call: MethodCall<E>, hasMethod: MethodExists,
                   processArgs: ArgsProcessor<E>): (r: Option<seq<AppliedCall>>)
    ensures r.None? <==> Unresolvable(call, hasMethod, processArgs)
    ensures r.Some? ==> r.value == log + Effect(call, hasMethod, processArgs)
  {
    match Classify(call, hasMethod)
    case Skip => assert log + [] == log; Some(log)
    case SetFirstResultZero => Some(log + [FirstResultCall])
    case SetMaxResultsTen => Some(log + [MaxResultsCall])
    case Process(methodName) =>
      match processArgs(methodName, call.args)
      case None => None
      case Some(args) => Some(log + [AppliedCall(methodName, args)])
  }

  /** Replay of `calls`, in order, on a builder whose log is `log`. A
      replay that does not abort only appends to the builder's log. */
  function Replay<E>(log: seq<AppliedCall>, calls: seq<MethodCall<E>>, hasMethod: MethodExists,
                     processArgs: ArgsProcessor<E>): (r: Option<seq<AppliedCall>>)
    ensures r.Some? ==> log <= r.value
    decreases |calls|
  {
    if calls == [] then Some(log)
    else
      match Step(log, calls[0], hasMethod, processArgs)
      case None => None
      case Some(next) =>
        var r := Replay(next, calls[1..], hasMethod, processArgs);
        assert r.Some? ==> log <= next <= r.value;
        r
  }

  // ---------------------------------------------------------------------
  // Reference definitions: the outcome of replay described call by call.

  /** A call that reaches argument processing and whose arguments do not resolve. */
  predicate Unresolvable<E>(call: MethodCall<E>, hasMethod: MethodExists, processArgs: ArgsProcessor<E>) {
    var a := Classify(call, hasMethod);
    a.Process? && processArgs(a.methodName, call.args).None?
  }

  predicate AnyUnresolvable<E>(calls: seq<MethodCall<E>>, hasMethod: MethodExists, processArgs: ArgsProcessor<E>) {
    exists i :: 0 <= i < |calls| && Unresolvable(calls[i], hasMethod, processArgs)
  }

  /** The builder calls one recorded call contributes to a successful replay. */
  function Effect<E>(call: MethodCall<E>, hasMethod: MethodExists, processArgs: ArgsProcessor<E>): seq<AppliedCall> {
    match Classify(call, hasMethod)
    case Skip => []
    case SetFirstResultZero => [FirstResultCall]
    case SetMaxResultsTen => [MaxResultsCall]
    case Process(methodName) =>
      match processArgs(methodName, call.args)
      case None => []
      case Some(args) => [AppliedCall(methodName, args)]
  }

  /** The effects of the whole chain, concatenated in source order. */
  function ExpectedLog<E>(calls: seq<MethodCall<E>>, hasMethod: MethodExists, processArgs: ArgsProcessor<E>): seq<AppliedCall>
    decreases |calls|
  {
    if calls == [] then []
    else Effect(calls[0], hasMethod, processArgs) + ExpectedLog(calls[1..], hasMethod, processArgs)
  }

  // ---------------------------------------------------------------------
  // Laws.

  /** A chain has an unresolvable call when its head is one or its tail has one. */
  lemma AnyUnresolvableCons<E>(calls: seq<MethodCall<E>>, hasMethod: MethodExists, processArgs: ArgsProcessor<E>)
    requires calls != []
    ensures AnyUnresolvable(calls, hasMethod, processArgs) <==>
              Unresolvable(calls[0], hasMethod, processArgs) || AnyUnresolvable(calls[1..], hasMethod, processArgs)
  {
    var rest := calls[1..];
    if AnyUnresolvable(calls, hasMethod, processArgs) && !Unresolvable(calls[0], hasMethod, processArgs) {
      var i :| 0 <= i < |calls| && Unresolvable(calls[i], hasMethod, processArgs);
      assert rest[i - 1] == calls[i];
    }
    if AnyUnresolvable(rest, hasMethod, processArgs) {
      var j :| 0 <= j < |rest| && Unresolvable(rest[j], hasMethod, processArgs);
      assert calls[j + 1] == rest[j];
    }
  }

  /** Replay aborts exactly when some call that reaches argument processing
      fails to resolve (fail-fast, whatever precedes or follows it);
      otherwise the builder ends with its old log followed by every
      call's effect, in source order. */
  lemma {:induction false} ReplayOutcome<E>(log: seq<AppliedCall>, calls: seq<MethodCall<E>>,
                                            hasMethod: MethodExists, processArgs: ArgsProcessor<E>)
    ensures Replay(log, calls, hasMethod, processArgs).None? <==> AnyUnresolvable(calls, hasMethod, processArgs)
    ensures !AnyUnresolvable(calls, hasMethod, processArgs) ==>
              Replay(log, calls, hasMethod, processArgs) == Some(log + ExpectedLog(calls, hasMethod, processArgs))
    decreases |calls|
  {
    if calls == [] {
      assert log + [] == log;
    } else {
      var rest := calls[1..];
      AnyUnresolvableCons(calls, hasMethod, processArgs);
      if Unresolvable(calls[0], hasMethod, processArgs) {
        assert Step(log, calls[0], hasMethod, processArgs) == None;
      } else {
        var next := log + Effect(calls[0], hasMethod, processArgs);
        assert Step(log, calls[0], hasMethod, processArgs) == Some(next);
        assert Replay(log, calls, hasMethod, processArgs) == Replay(next, rest, hasMethod, processArgs);
        ReplayOutcome(next, rest, hasMethod, processArgs);
        assert ExpectedLog(calls, hasMethod, processArgs)
            == Effect(calls[0], hasMethod, processArgs) + ExpectedLog(rest, hasMethod, processArgs);
        assert log + ExpectedLog(calls, hasMethod, processArgs) == next + ExpectedLog(rest, hasMethod, processArgs);
      }
    }
  }

  /** Replaying a concatenation is replaying the first part and then, if it
      did not abort, the second part from where the first left the builder. */
  lemma {:induction false} ReplayAppend<E>(log: seq<AppliedCall>, first: seq<MethodCall<E>>, second: seq<MethodCall<E>>,
                                           hasMethod: MethodExists, processArgs: ArgsProcessor<E>)
    ensures Replay(log, first + second, hasMethod, processArgs) ==
              match Replay(log, first, hasMethod, processArgs)
              case None => None
              case Some(mid) => Replay(mid, second, hasMethod, processArgs)
    decreases |first|
  {
    if first == [] {
      assert first + second == second;
    } else {
      assert (first + second)[0] == first[0];
      assert (first + second)[1..] == first[1..] + second;
      match Step(log, first[0], hasMethod, processArgs)
      case None =>
      case Some(next) => ReplayAppend(next, first[1..], second, hasMethod, processArgs);
    }
  }

  /** A call the policy skips (non-identifier name, parameter binding,
      method missing on the builder) can be deleted from the chain without
      changing the replay. */
  lemma SkippedCallRemovable<E>(log: seq<AppliedCall>, before: seq<MethodCall<E>>, call: MethodCall<E>,
                                after: seq<MethodCall<E>>, hasMethod: MethodExists, processArgs: ArgsProcessor<E>)
    requires Classify(call, hasMethod) == Skip
    ensures Replay(log, before + [call] + after, hasMethod, processArgs) ==
            Replay(log, before + after, hasMethod, processArgs)
  {
    assert before + [call] + after == before + ([call] + after);
    ReplayAppend(log, before, [call] + after, hasMethod, processArgs);
    ReplayAppend(log, before, after, hasMethod, processArgs);
    match Replay(log, before, hasMethod, processArgs)
    case None =>
    case Some(mid) =>
      assert ([call] + after)[1..] == after;
  }

  predicate IsParameterBinding<E>(call: MethodCall<E>) {
    call.name.Identifier? && ToLower(call.name.id) in ParameterBindingNames
  }

  /** The chain with its `setParameter` / `setParameters` calls (in any case) taken out. */
  function WithoutParameterBinding<E>(calls: seq<MethodCall<E>>): (r: seq<MethodCall<E>>)
    ensures |r| <= |calls|
    ensures forall i :: 0 <= i < |r| ==> !IsParameterBinding(r[i])
    ensures (forall i :: 0 <= i < |calls| ==> !IsParameterBinding(calls[i])) ==> r == calls
    ensures forall i :: 0 <= i < |r| ==> r[i] in calls
    ensures forall i :: 0 <= i < |calls| && !IsParameterBinding(calls[i]) ==> calls[i] in r
    decreases |calls|
  {
    if calls == [] then []
    else if IsParameterBinding(calls[0]) then WithoutParameterBinding(calls[1..])
    else [calls[0]] + WithoutParameterBinding(calls[1..])
  }

  /** The filter works piecewise, so it keeps the surviving calls in their
      source order. */
  lemma {:induction false} WithoutParameterBindingAppend<E>(a: seq<MethodCall<E>>, b: seq<MethodCall<E>>)
    ensures WithoutParameterBinding(a + b) == WithoutParameterBinding(a) + WithoutParameterBinding(b)
    decreases |a|
  {
    if a == [] {
      assert a + b == b;
    } else {
      assert (a + b)[0] == a[0];
      assert (a + b)[1..] == a[1..] + b;
      WithoutParameterBindingAppend(a[1..], b);
    }
  }

  /** Parameter-binding calls never touch the builder and never reach the
      argument processor: the replay equals that of the chain without them. */
  lemma {:induction false} ParameterBindingIrrelevant<E>(log: seq<AppliedCall>, calls: seq<MethodCall<E>>,
                                                         hasMethod: MethodExists, processArgs: ArgsProcessor<E>)
    ensures Replay(log, calls, hasMethod, processArgs) ==
            Replay(log, WithoutParameterBinding(calls), hasMethod, processArgs)
    decreases |calls|
  {
    if calls != [] {
      var rest := calls[1..];
      var filtered := WithoutParameterBinding(rest);
      if IsParameterBinding(calls[0]) {
        ParameterBindingIrrelevant(log, rest, hasMethod, processArgs);
      } else {
        var r := [calls[0]] + filtered;
        assert r[0] == calls[0] && r[1..] == filtered;
        match Step(log, calls[0], hasMethod, processArgs)
        case None =>
        case Some(next) => ParameterBindingIrrelevant(next, rest, hasMethod, processArgs);
      }
    }
  }

  /** Two calls that the policy treats alike: the same action, and, when
      the arguments are processed, the same processed arguments. */
  predicate SameTreatment<E>(c1: MethodCall<E>, c2: MethodCall<E>, hasMethod: MethodExists,
                             p1: ArgsProcessor<E>, p2: ArgsProcessor<E>) {
    var a := Classify(c1, hasMethod);
    a == Classify(c2, hasMethod) &&
    (a.Process? ==> p1(a.methodName, c1.args) == p2(a.methodName, c2.args))
  }

  /** Replay sees nothing of a call but its action and, for processed
      calls, the processed arguments. */
  lemma {:induction false} ReplayCongruence<E>(log: seq<AppliedCall>, c1: seq<MethodCall<E>>, c2: seq<MethodCall<E>>,
                                               hasMethod: MethodExists, p1: ArgsProcessor<E>, p2: ArgsProcessor<E>)
    requires |c1| == |c2|
    requires forall i :: 0 <= i < |c1| ==> SameTreatment(c1[i], c2[i], hasMethod, p1, p2)
    ensures Replay(log, c1, hasMethod, p1) == Replay(log, c2, hasMethod, p2)
    decreases |c1|
  {
    if c1 != [] {
      assert SameTreatment(c1[0], c2[0], hasMethod, p1, p2);
      assert Step(log, c1[0], hasMethod, p1) == Step(log, c2[0], hasMethod, p2);
      match Step(log, c1[0], hasMethod, p1)
      case None =>
      case Some(next) =>
        forall i | 0 <= i < |c1[1..]|
          ensures SameTreatment(c1[1..][i], c2[1..][i], hasMethod, p1, p2)
        {
          assert c1[1..][i] == c1[i + 1] && c2[1..][i] == c2[i + 1];
        }
        ReplayCongruence(next, c1[1..], c2[1..], hasMethod, p1, p2);
    }
  }

  /** A `setFirstResult` or `setMaxResults` call, in any case, contributes
      the same canonical call whatever its arguments. */
  lemma NormalisedArgumentsIrrelevant<E>(log: seq<AppliedCall>, before: seq<MethodCall<E>>, name: string,
                                         args1: seq<E>, args2: seq<E>, after: seq<MethodCall<E>>,
                                         hasMethod: MethodExists, processArgs: ArgsProcessor<E>)
    requires ToLower(name) == "setfirstresult" || ToLower(name) == "setmaxresults"
    ensures Replay(log, before + [MethodCall(Identifier(name), args1)] + after, hasMethod, processArgs) ==
            Replay(log, before + [MethodCall(Identifier(name), args2)] + after, hasMethod, processArgs)
  {
    var chain1 := before + [MethodCall(Identifier(name), args1)] + after;
    var chain2 := before + [MethodCall(Identifier(name), args2)] + after;
    forall i | 0 <= i < |chain1|
      ensures SameTreatment(chain1[i], chain2[i], hasMethod, processArgs, processArgs)
    {
      if i != |before| {
        assert chain1[i] == chain2[i];
      }
    }
    ReplayCongruence(log, chain1, chain2, hasMethod, processArgs, processArgs);
  }

  /** Inserting a call that cannot fail to resolve neither adds nor removes
      an unresolvable call. */
  lemma AnyUnresolvableSplice<E>(before: seq<MethodCall<E>>, call: MethodCall<E>, after: seq<MethodCall<E>>,
                                 hasMethod: MethodExists, processArgs: ArgsProcessor<E>)
    requires !Unresolvable(call, hasMethod, processArgs)
    ensures AnyUnresolvable(before + [call] + after, hasMethod, processArgs) <==>
            AnyUnresolvable(before + after, hasMethod, processArgs)
  {
    var chain, shorter := before + [call] + after, before + after;
    if AnyUnresolvable(chain, hasMethod, processArgs) {
      var i :| 0 <= i < |chain| && Unresolvable(chain[i], hasMethod, processArgs);
      if i < |before| {
        assert shorter[i] == chain[i];
      } else {
        assert shorter[i - 1] == chain[i];
      }
    }
    if AnyUnresolvable(shorter, hasMethod, processArgs) {
      var j :| 0 <= j < |shorter| && Unresolvable(shorter[j], hasMethod, processArgs);
      if j < |before| {
        assert chain[j] == shorter[j];
      } else {
        assert chain[j + 1] == shorter[j];
      }
    }
  }

  /** Offset and limit calls, in any case and with any arguments, can never
      make the replay fall back: the chain aborts exactly when it would
      without them. */
  lemma NormalisedCallNeverFallsBack<E>(log: seq<AppliedCall>, before: seq<MethodCall<E>>, call: MethodCall<E>,
                                        after: seq<MethodCall<E>>, hasMethod: MethodExists, processArgs: ArgsProcessor<E>)
    requires Classify(call, hasMethod) == SetFirstResultZero || Classify(call, hasMethod) == SetMaxResultsTen
    ensures Replay(log, before + [call] + after, hasMethod, processArgs).None? <==>
            Replay(log, before + after, hasMethod, processArgs).None?
  {
    AnyUnresolvableSplice(before, call, after, hasMethod, processArgs);
    ReplayOutcome(log, before + [call] + after, hasMethod, processArgs);
    ReplayOutcome(log, before + after, hasMethod, processArgs);
  }

  /** The argument processor is consulted only for calls that reach the
      processing step: two processors that agree there give the same replay. */
  lemma ProcessorConsultedOnlyWhenReached<E>(log: seq<AppliedCall>, calls: seq<MethodCall<E>>,
                                             hasMethod: MethodExists, p1: ArgsProcessor<E>, p2: ArgsProcessor<E>)
    requires forall i :: 0 <= i < |calls| && Classify(calls[i], hasMethod).Process? ==>
               p1(calls[i].name.id, calls[i].args) == p2(calls[i].name.id, calls[i].args)
    ensures Replay(log, calls, hasMethod, p1) == Replay(log, calls, hasMethod, p2)
  {
    forall i | 0 <= i < |calls|
      ensures SameTreatment(calls[i], calls[i], hasMethod, p1, p2)
    {
    }
    ReplayCongruence(log, calls, calls, hasMethod, p1, p2);
  }

  /** Fail-fast: one unresolvable call aborts the whole replay, whatever
      the calls before and after it are. */
  lemma FailFast<E>(log: seq<AppliedCall>, before: seq<MethodCall<E>>, call: MethodCall<E>,
                    after: seq<MethodCall<E>>, hasMethod: MethodExists, processArgs: ArgsProcessor<E>)
    requires Unresolvable(call, hasMethod, processArgs)
    ensures Replay(log, before + [call] + after, hasMethod, processArgs) == None
  {
    var chain := before + [call] + after;
    assert chain[|before|] == call;
    ReplayOutcome(log, chain, hasMethod, processArgs);
  }
}
