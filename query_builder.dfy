/** A stand-in for Doctrine's ORM query builder. Doctrine assembles DQL from
    the calls made on a builder; here the builder keeps the ordered log of
    the calls applied to it, and that log is its DQL. */
module DoctrineQueryBuilder {

  /** A resolved argument value: a literal scalar or a literal array. */
  datatype Value =
    | IntValue(n: int)
    | StringValue(s: string)
    | BoolValue(b: bool)
    | NullValue
    | ArrayValue(entries: seq<(Value, Value)>)

  /** One call applied to the builder, with its resolved arguments. */
  datatype AppliedCall = AppliedCall(name: string, args: seq<Value>)

  const SetFirstResultName: string := "setFirstResult"
  const SetMaxResultsName: string := "setMaxResults"

  class QueryBuilder {
    var log: seq<AppliedCall>

    /** `EntityManagerInterface::createQueryBuilder`: a builder with nothing applied. */
    constructor ()
      ensures log == []
    {
      log := [];
    }

    method SetFirstResult(firstResult: int)
      modifies this
      ensures log == old(log) + [AppliedCall(SetFirstResultName, [IntValue(firstResult)])]
    {
      log := log + [AppliedCall(SetFirstResultName, [IntValue(firstResult)])];
    }

    method SetMaxResults(maxResults: int)
      modifies this
      ensures log == old(log) + [AppliedCall(SetMaxResultsName, [IntValue(maxResults)])]
    {
      log := log + [AppliedCall(SetMaxResultsName, [IntValue(maxResults)])];
    }

    /** A dynamic call `$queryBuilder->{$methodName}(...$args)`. */
    method Invoke(methodName: string, args: seq<Value>)
      modifies this
      ensures log == old(log) + [AppliedCall(methodName, args)]
    {
      log := log + [AppliedCall(methodName, args)];
    }

    method GetDql() returns (dql: seq<AppliedCall>)
      ensures dql == log
    {
      dql := log;
    }
  }
}
