/** The dynamic return-type extension for `QueryBuilder::getQuery()`: it
    replays the recorded fluent calls of the receiver on a fresh builder and
    reports a query type built from that builder's DQL, or falls back to the
    method's declared return type. */
module GetQueryExtension {
  import opened Wrappers
  import opened Ascii
  import opened DoctrineQueryBuilder
  import opened ReplayPolicy

  const DefaultQueryBuilderClass: string := "Doctrine\\ORM\\QueryBuilder"
  const SupportedMethodName: string := "getQuery"

  /** The extension's configuration: an optional override of the builder class. */
  datatype Extension = Extension(queryBuilderClass: Option<string>) {

    /** The class whose `getQuery` calls the extension handles. */
    function GetClass(): (c: string)
      ensures queryBuilderClass.Some? ==> c == queryBuilderClass.value
      ensures queryBuilderClass.None? ==> c == DefaultQueryBuilderClass
    {
      match queryBuilderClass
      case Some(name) => name
      case None => DefaultQueryBuilderClass
    }

    /** Only `getQuery` is handled, compared case-sensitively. */
    function IsMethodSupported(methodName: string): (supported: bool)
      ensures supported <==> methodName == SupportedMethodName
    {
      methodName == SupportedMethodName
    }
  }

  /** The type the analyser infers for the receiver of `getQuery()`. */
  datatype CalledOnType<E> = QueryBuilderType(methodCalls: seq<MethodCall<E>>) | OtherType

  /** The kind of object manager the metadata resolver supplies. */
  datatype ObjectManager = EntityManager | OtherObjectManager

  /** The inferred return type: the signature's default, or a query type of the replayed DQL. */
  datatype ReturnType = DefaultReturnType | QueryType(dql: seq<AppliedCall>)

  /** What `getTypeFromMethodCall` returns for the given inputs. */
  function InferReturnType<E>(calledOnType: CalledOnType<E>, objectManager: Option<ObjectManager>,
                              hasMethod: MethodExists, processArgs: ArgsProcessor<E>): (r: ReturnType)
    ensures !calledOnType.QueryBuilderType? ==> r == DefaultReturnType
    ensures objectManager != Some(EntityManager) ==> r == DefaultReturnType
    ensures r.QueryType? <==>
              calledOnType.QueryBuilderType? && objectManager == Some(EntityManager) &&
              !AnyUnresolvable(calledOnType.methodCalls, hasMethod, processArgs)
    ensures r.QueryType? ==> r.dql == ExpectedLog(calledOnType.methodCalls, hasMethod, processArgs)
  {
    if !calledOnType.QueryBuilderType? || objectManager != Some(EntityManager) then DefaultReturnType
    else
      var calls := calledOnType.methodCalls;
      ReplayOutcome([], calls, hasMethod, processArgs);
      assert [] + ExpectedLog(calls, hasMethod, processArgs) == ExpectedLog(calls, hasMethod, processArgs);
      match Replay([], calls, hasMethod, processArgs)
      case None => DefaultReturnType
      case Some(log) => QueryType(log)
  }

  /** The replay loop: guards, a fresh builder, then each recorded call in source order. */
  method GetTypeFromMethodCall<E>(calledOnType: CalledOnType<E>, objectManager: Option<ObjectManager>,
                                  hasMethod: MethodExists, processArgs: ArgsProcessor<E>)
    returns (r: ReturnType)
    ensures r == InferReturnType(calledOnType, objectManager, hasMethod, processArgs)
  {
    if !calledOnType.QueryBuilderType? {
      return DefaultReturnType;
    }
    if objectManager.None? {
      return DefaultReturnType;
    }
    if objectManager.value != EntityManager {
      return DefaultReturnType;
    }

    var queryBuilder := new QueryBuilder();
    var calls := calledOnType.methodCalls;
    ghost var outcome := Replay([], calls, hasMethod, processArgs);
    assert calls[0..] == calls;

    for i := 0 to |calls|
      invariant Replay(queryBuilder.log, calls[i..], hasMethod, processArgs) == outcome
    {
      var calledMethodCall := calls[i];
      assert calls[i..][0] == calledMethodCall && calls[i..][1..] == calls[i + 1..];
      if !calledMethodCall.name.Identifier? {
        continue;
      }

      var methodName := calledMethodCall.name.id;
      var lowerMethodName := ToLower(methodName);
      if lowerMethodName in ["setparameter", "setparameters"] {
        continue;
      }

      if lowerMethodName == "setfirstresult" {
        queryBuilder.SetFirstResult(0);
        continue;
      }

      if lowerMethodName == "setmaxresults" {
        queryBuilder.SetMaxResults(10);
        continue;
      }

      if !hasMethod(methodName) {
        continue;
      }

      var args := processArgs(methodName, calledMethodCall.args);
      if args.None? {
        return DefaultReturnType;
      }

      queryBuilder.Invoke(methodName, args.value);
    }

    var dql := queryBuilder.GetDql();
    return QueryType(dql);
  }
}
