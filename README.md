# Query replay for `QueryBuilder::getQuery()` return types

This project models the core of phpstan-doctrine's
`QueryBuilderGetQueryDynamicReturnTypeExtension`. For `getQuery()` called on an
expression typed as a Doctrine query builder with a recorded chain of fluent
calls, the extension replays those calls on a freshly created builder and
reports a `QueryType` built from that builder's DQL. When an argument cannot be
resolved statically, or the receiver or object manager is not what it needs, it
falls back to the method's declared return type.

The model has five modules:

- `Wrappers` (`wrappers.dfy`): the `Option` type.
- `Ascii` (`ascii.dfy`): `strtolower` as character-wise lowering of the ASCII letters A-Z.
- `DoctrineQueryBuilder` (`query_builder.dfy`): a stand-in for Doctrine's builder. The class
  `QueryBuilder` keeps the ordered log of applied calls, and that log stands
  for its DQL.
- `ReplayPolicy` (`replay_policy.dfy`): the per-call policy `Classify`, one replay `Step`, the
  replay `Replay` as a fold over the chain, and two reference descriptions of
  its outcome. `AnyUnresolvable` says when it aborts. `ExpectedLog` gives the
  effects of each call concatenated in source order. The module also holds the
  laws that relate the fold to these descriptions.
- `GetQueryExtension` (`get_query_extension.dfy`): the extension's configuration (`GetClass`,
  `IsMethodSupported`), the specification `InferReturnType`, and the
  imperative `GetTypeFromMethodCall`. That method runs the source's guards and
  its `foreach` with `continue`s and an early `return`, on a new `QueryBuilder`
  object. It is proved equal to `InferReturnType`.

Inputs from outside the core become parameters:

- the receiver type (`CalledOnType`: a query-builder type with its calls, or some other type);
- the object manager returned by the metadata resolver (`None` for null, an
  entity manager, or some other manager);
- `method_exists` on the builder (`hasMethod: string -> bool`);
- the argument processor with the scope fixed (`processArgs`: returns
  `None` where the source throws `DynamicQueryBuilderArgumentException`).

Argument expressions are the type parameter `E`. The default return type
that signature resolution computes is the tag `DefaultReturnType`.

The code checks for a non-identifier call name before looking at parameter
binding, and the model follows that order. Checking parameter binding first
would give the same result on every input, because a non-identifier call is
skipped either way.

## Model

| member | source | states |
|---|---|---|
| `Ascii.ToLower` | src/Type/Doctrine/QueryBuilder/QueryBuilderGetQueryDynamicReturnTypeExtension.php:88 | The lowered name has the same length as the original. Each character is the ASCII-lowered original character, and no upper-case letter remains. |
| `Ascii.LowerChar` | src/Type/Doctrine/QueryBuilder/QueryBuilderGetQueryDynamicReturnTypeExtension.php:88 | Letters A-Z move up by 32 to a-z. Every other character is unchanged. The result is never an upper-case letter. |
| `GetQueryExtension.Extension.GetClass` | src/Type/Doctrine/QueryBuilder/QueryBuilderGetQueryDynamicReturnTypeExtension.php:42-45 | Returns the configured class when one is set, and `Doctrine\ORM\QueryBuilder` otherwise. |
| `GetQueryExtension.Extension.IsMethodSupported` | src/Type/Doctrine/QueryBuilder/QueryBuilderGetQueryDynamicReturnTypeExtension.php:47-50 | True exactly when the name is `getQuery`, compared case-sensitively, so `getquery` or `GETQUERY` is not supported. |
| `ReplayPolicy.Classify` | src/Type/Doctrine/QueryBuilder/QueryBuilderGetQueryDynamicReturnTypeExtension.php:83-108 | Gives the priority of the policy. Non-identifier names and any-case `setParameter`/`setParameters` are skipped. Any-case `setFirstResult`/`setMaxResults` are normalised, whether or not the builder has them. A call reaches argument processing exactly when its name is an identifier, is none of those four, and exists on the builder; it keeps its name as written. |
| `ReplayPolicy.Step` | src/Type/Doctrine/QueryBuilder/QueryBuilderGetQueryDynamicReturnTypeExtension.php:83-117 | One iteration of the loop body. A call aborts the replay exactly when it reaches processing and its arguments do not resolve. Otherwise it appends exactly its effect to the builder's log. |
| `ReplayPolicy.Replay` | src/Type/Doctrine/QueryBuilder/QueryBuilderGetQueryDynamicReturnTypeExtension.php:82-118 | The whole loop as a fold over the chain in source order. A replay that does not abort only extends the builder's log: the starting log is a prefix of the final one. |
| `ReplayPolicy.AnyUnresolvableCons` | src/Type/Doctrine/QueryBuilder/QueryBuilderGetQueryDynamicReturnTypeExtension.php:82-115 | A chain holds an unresolvable call exactly when its first call is one or the rest of the chain holds one. |
| `ReplayPolicy.ReplayOutcome` | src/Type/Doctrine/QueryBuilder/QueryBuilderGetQueryDynamicReturnTypeExtension.php:82-118 | Replay aborts if and only if some call that reaches processing fails to resolve. Otherwise the builder ends with its old log followed by every call's effect, in source order. |
| `ReplayPolicy.ReplayAppend` | src/Type/Doctrine/QueryBuilder/QueryBuilderGetQueryDynamicReturnTypeExtension.php:82-118 | Replaying `a + b` means replaying `a` and then, unless that aborted, replaying `b` from the builder state `a` left. |
| `ReplayPolicy.SkippedCallRemovable` | src/Type/Doctrine/QueryBuilder/QueryBuilderGetQueryDynamicReturnTypeExtension.php:83-108 | A skipped call can be deleted from anywhere in the chain without changing the outcome. Skipped calls are non-identifier names, parameter binding and methods the builder lacks. |
| `ReplayPolicy.WithoutParameterBinding` | src/Type/Doctrine/QueryBuilder/QueryBuilderGetQueryDynamicReturnTypeExtension.php:89-94 | The filtered chain is no longer than the original and holds no parameter-binding call. Every call in it comes from the original, and every non-binding call of the original is kept. A chain without such calls is returned unchanged. |
| `ReplayPolicy.WithoutParameterBindingAppend` | src/Type/Doctrine/QueryBuilder/QueryBuilderGetQueryDynamicReturnTypeExtension.php:89-94 | Filtering a concatenation is concatenating the filtered parts, so the surviving calls keep their source order. |
| `ReplayPolicy.ParameterBindingIrrelevant` | src/Type/Doctrine/QueryBuilder/QueryBuilderGetQueryDynamicReturnTypeExtension.php:88-94 | The outcome of a chain equals the outcome of the same chain with every any-case `setParameter`/`setParameters` call removed. |
| `ReplayPolicy.ReplayCongruence` | src/Type/Doctrine/QueryBuilder/QueryBuilderGetQueryDynamicReturnTypeExtension.php:82-118 | Two chains give the same outcome, even under different processors, when they agree call by call on the action and, for processed calls, on the processed arguments. |
| `ReplayPolicy.NormalisedArgumentsIrrelevant` | src/Type/Doctrine/QueryBuilder/QueryBuilderGetQueryDynamicReturnTypeExtension.php:96-104 | The outcome does not depend on the actual arguments of an any-case `setFirstResult` or `setMaxResults` call. |
| `ReplayPolicy.AnyUnresolvableSplice` | src/Type/Doctrine/QueryBuilder/QueryBuilderGetQueryDynamicReturnTypeExtension.php:82-115 | Inserting a call that cannot fail to resolve neither adds nor removes an unresolvable call in the chain. |
| `ReplayPolicy.NormalisedCallNeverFallsBack` | src/Type/Doctrine/QueryBuilder/QueryBuilderGetQueryDynamicReturnTypeExtension.php:96-104 | A chain with an offset or limit call aborts exactly when the same chain without that call aborts. Such a call never causes the fallback. |
| `ReplayPolicy.ProcessorConsultedOnlyWhenReached` | src/Type/Doctrine/QueryBuilder/QueryBuilderGetQueryDynamicReturnTypeExtension.php:106-111 | Two argument processors that agree on the calls reaching processing give the same outcome. The processor is never consulted for any other call. |
| `ReplayPolicy.FailFast` | src/Type/Doctrine/QueryBuilder/QueryBuilderGetQueryDynamicReturnTypeExtension.php:110-115 | One unresolvable call aborts the whole replay, whatever the calls before and after it are. |
| `GetQueryExtension.InferReturnType` | src/Type/Doctrine/QueryBuilder/QueryBuilderGetQueryDynamicReturnTypeExtension.php:52-121 | The result is the default type when the receiver is not a query-builder type or the manager is not an entity manager (null or another kind). Otherwise it is a query type exactly when no call fails to resolve. Its DQL is then the chain's expected log starting from an empty builder, so no state carries over from elsewhere. |
| `GetQueryExtension.GetTypeFromMethodCall` | src/Type/Doctrine/QueryBuilder/QueryBuilderGetQueryDynamicReturnTypeExtension.php:52-121 | The guards, then the `foreach` over a freshly created builder with its `continue`s and early `return`, compute exactly `InferReturnType` of the inputs, on the assumption that no builder call throws (see `## Left out`). |
| `DoctrineQueryBuilder.QueryBuilder.constructor` | src/Type/Doctrine/QueryBuilder/QueryBuilderGetQueryDynamicReturnTypeExtension.php:80 | A newly created builder has no calls applied. |
| `DoctrineQueryBuilder.QueryBuilder.SetFirstResult` | src/Type/Doctrine/QueryBuilder/QueryBuilderGetQueryDynamicReturnTypeExtension.php:97 | Appends `setFirstResult(n)` to the log and changes nothing else. |
| `DoctrineQueryBuilder.QueryBuilder.SetMaxResults` | src/Type/Doctrine/QueryBuilder/QueryBuilderGetQueryDynamicReturnTypeExtension.php:102 | Appends `setMaxResults(n)` to the log and changes nothing else. |
| `DoctrineQueryBuilder.QueryBuilder.Invoke` | src/Type/Doctrine/QueryBuilder/QueryBuilderGetQueryDynamicReturnTypeExtension.php:117 | Appends the dynamic call with its name as written and its processed arguments. |
| `DoctrineQueryBuilder.QueryBuilder.GetDql` | src/Type/Doctrine/QueryBuilder/QueryBuilderGetQueryDynamicReturnTypeExtension.php:120 | Returns the builder's current log, which stands for its DQL. |

## Left out

- Doctrine's DQL assembly and the meaning of each builder method: Doctrine is a foreign library. The builder is an append-only call log, and that log stands for the DQL string.
- `QueryType` and how it classifies a query's result shape (scalar, entity list and so on): it belongs to another file. The model's result carries only the replayed log.
- `ArgumentsProcessor::processArgs` and `DynamicQueryBuilderArgumentException`: their source is not part of this model. The processor is an uninterpreted partial function, with the scope fixed.
- `Scope::getType`, `ParametersAcceptorSelector::selectFromArgs` and `ObjectMetadataResolver::getObjectManager`: these belong to the analysis engine and to metadata loading. The receiver type, the default return type and the object manager are inputs.
- `method_exists`: PHP reflection. It is an abstract predicate on method names, fixed for the builder's class.
- `DoctrineQueryBuilder.QueryBuilder.Invoke`: always appends and never fails. In the source, the dynamic call `$queryBuilder->{$methodName}(...$args)` at line 117 lies outside the `try` of lines 110-115, in a file under `strict_types = 1`. Errors raised there escape `getTypeFromMethodCall` instead of falling back: a `TypeError` or `ArgumentCountError` from the processed arguments, an `Error` for a private method (`method_exists` at line 106 is also true for private methods), or an exception from Doctrine. Modelling them would need Doctrine's method signatures and visibility, which are not part of this model.
- PHP calls methods case-insensitively. The model records a dynamic call under its name as written and does not identify spellings that differ only in case.
- `Ascii.ToLower`: lowers only A-Z. This is `strtolower` in the "C" locale. Other locales can also lower bytes above 127, and the model does not capture that.
- tests/Rules/Doctrine/ORM/EntityMustNotBeFinalRuleTest.php: a test harness for a separate lint rule, with no logic of its own.
