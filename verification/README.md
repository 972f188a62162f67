# Verified model of pyfly

A Dafny model of the parts of pyfly whose correctness is least obvious from reading one function: the
dependency-injection container and startup, around-advice weaving, the small compilers and parsers
(pointcuts, derived queries, security expressions, XML, OpenAPI references), layered configuration with
placeholders, and the stateful components (rate limiter, circuit breaker under retry, caches with failover,
the log stream). `dafny verify dfyconfig.toml` checks everything.

There is one module per source component. Code that updates objects in place is modelled by classes and
loops whose contracts tie them to specification functions; the theorems are lemmas about those functions.

- **Container, BeanGraph, Rewiring, ApplicationContext.** `BeanGraph` defines construction without any cache or
  stack (`PlainBuild`): a partial function of the dependency graph that may end with a bean, end with a failure, or
  never end. `Container` is the resolver with its registrations, cached instances and in-creation stack. Every
  resolver method is proved, on every graph and from every valid state, to give exactly the plain outcome, or the
  circular error when and only when plain construction never ends. Termination is proved by the registered types
  not yet in creation. `Rewiring` says which registrations and bindings leave the beans built before them what
  plain construction gives; the container keeps them in a ghost zone closed under dependencies, which may be widened
  at will (`ApplicationContext.GetBean` does it). `ApplicationContext` runs a whole start: the beans the context
  hands in itself, registrations, `@configuration` classes with their factory methods, and the eager pass.
- **BeanMethods.** Kahn's algorithm with its loop invariants, and why its length test decides acyclicity.
- **RateLimiter.** A call is admitted exactly when every window ending now has room (the min-plus law).
- **Pointcut, AspectRegistry, Weaver.** The compiled regular expression against segment matching; stable
  ordering of advice; the shared `proceed` slot against nested handlers, with the exact condition.
- **QueryParser.** Parser and inverse printer, with the exact set of queries that survive the round trip.
- **ConfigTree, Placeholders.** The left-fold merge law, flattening against dotted lookup, and bounded
  placeholder resolution against unbounded substitution, with the exact condition for failure.
- **Converters.** Dictionary to element tree and back, as a normal form.
- **SecurityExpressions.** Text-level substitution, token check, parse and evaluation against truth values.
- **Resilience, OverlappingCalls.** Breaker, retry loop and wrapper: how much work a failing service can be made
  to do, by calls one after another and by any number of calls in flight at once.
- **Cache.** Decorated reads against the source, and exactly which outages of a primary they survive.
- **OpenApi.** Every emitted reference names an emitted component.
- **LogStream.** Each log record is received, lost or waiting, and exactly when nothing is lost.

`Wrappers`, `Sequences` and `Strings` hold shared helpers.

Where the code and its own description differ, the model follows the code. The breaker's description
promises a single probe request after the recovery timeout; the code admits any number of overlapping ones
(`OverlappingCalls.ManyProbes`) and keeps the promise exactly when its callers keep it
(`OverlappingCalls.SingleProbeIffCallersWait`). Its stored state is never half-open, and the branch for that state
(`src/pyfly/client/circuit_breaker.py:95-99`) is never taken. A handler that proceeds twice skips the inner advice the second time, because the slot was
overwritten (`src/pyfly/aop/weaver.py:157`, `Weaver.SecondProceedSkips`). Deep merge is not associative
(`ConfigTree.MergeAssociativeIff`). A bean built before one of its dependencies is registered is not built again
(`Rewiring.BuiltTooEarly`). The cache manager keeps its fallback warm, but a primary that
comes back after an outage serves what it missed.

## Model

| member | source | states |
|---|---|---|
| BeanGraph.PlainBuildEquation | src/pyfly/container/container.py:176-222 | Construction without cache or stack satisfies its own recursion on every graph: a bean is its class built from the complete constructions of its dependencies, with the same optional, list, default and qualifier rules |
| BeanGraph.BuildMonotone | src/pyfly/container/container.py:176-222 | A construction that ends at some nesting depth ends with the same outcome at every greater depth, so plain construction is well defined |
| BeanGraph.StuckForGood | src/pyfly/container/container.py:187-188 | A request the resolver finds circular from an empty stack has no plain construction at any depth |
| BeanGraph.CircularMeansCycle | src/pyfly/container/container.py:187-188 | The chain reported by the circular error together with the current type contains a closed walk of real dependency edges, so the error is never raised on an acyclic graph |
| BeanGraph.EndlessMeansCycle | src/pyfly/container/container.py:176-222 | Plain construction fails to end only if the dependency graph has a cycle, which the lemma exhibits |
| BeanGraph.PlainBuildComplete | src/pyfly/container/container.py:192-212 | Everything injected into a built bean, at any depth, is itself the complete construction of its class |
| Container.PopLast | src/pyfly/container/container.py:213-222 | Popping a key just pushed on the in-creation stack restores the stack |
| Container.Container.Register | src/pyfly/container/container.py:59-77 | A fresh uncached registration under the type and its bean name, with the class's own scope and name rules, and nothing else changed; an idle container with beans already cached or handed in stays valid when the classes built so far are undisturbed by it |
| Container.Container.HandIn | src/pyfly/context/application_context.py:77-80 | A registration whose instance is set from outside: its constructor is never run and it counts as no construction; an idle container stays valid when the type is new, or handed in before, and the classes built so far are undisturbed |
| Container.Container.Remove | src/pyfly/context/application_context.py:369-373 | The registration leaves the type dictionary, the entry under its name goes with it, and bindings to the type are left; an idle container stays valid when the classes built so far are undisturbed |
| Container.Container.Bind | src/pyfly/container/container.py:79-84 | The implementation is appended to the interface's list unless it is there already, and nothing else changes; an idle container stays valid when the classes built so far are undisturbed |
| Container.Container.ResolveRegistration | src/pyfly/container/container.py:130-153 | The plain outcome or a real circular error; a resolved singleton is cached, a cached one never changes and, unless it was handed in, is constructed to completion exactly once |
| Container.Container.CreateInstance | src/pyfly/container/container.py:176-222 | Terminates on every graph, restores the in-creation stack on every exit, and agrees with plain construction; a circular error carries a real path of dependency edges closing on itself |
| Container.Container.CreateGuarded | src/pyfly/container/container.py:189-222 | The guarded part restores the stack on success and failure and never caches the bean under construction by itself |
| Container.Container.Assemble | src/pyfly/container/container.py:190-212 | Constructor arguments first, then fields, agreeing with plain construction of the class |
| Container.Container.ResolveArgs | src/pyfly/container/container.py:192-208 | The keyword arguments of a constructor, or of a factory method, in order, leaving out those that keep their default |
| Container.Container.ResolveArg | src/pyfly/container/container.py:196-208 | A caught failure falls back to the default when there is one and is otherwise reported as unsatisfied; other failures pass through |
| Container.Container.InjectAutowiredFields | src/pyfly/container/container.py:259-310 | The injected fields agree with plain construction, in order, stopping at the first failure |
| Container.Container.ResolveField | src/pyfly/container/container.py:273-310 | Qualified, annotated and plain autowired fields, with optional ones becoming nothing on a caught failure |
| Container.Container.ResolveParam | src/pyfly/container/container.py:224-257 | Qualifier, optional, list and plain annotations each give the plain outcome for that annotation |
| Container.Container.Resolve | src/pyfly/container/container.py:86-110 | From every valid state the outcome is that of plain construction of the chosen candidate (registered, only, or primary implementation), or the circular error when that never ends; failures leave the container as sound as before |
| Container.Container.ResolveByName | src/pyfly/container/container.py:112-119 | The plain outcome of the named registration, or the missing-name failure |
| Container.Container.ResolveAll | src/pyfly/container/container.py:121-124 | The plain constructions of all bound implementations in binding order, or the first failure |
| Container.Container.CircularIffEndless | src/pyfly/container/container.py:187-188 | With nothing under construction, the circular error is raised if and only if plain construction never ends |
| Rewiring.PlainSame | src/pyfly/container/container.py:130-143 | A bean whose class depends only on classes with the same parameters, fields and candidates before and after a change of the wiring is what plain construction gives after it as before |
| Rewiring.UnaskedUndisturbed | src/pyfly/container/container.py:59-77 | Registering a type nobody is bound to leaves a closed set of classes undisturbed when none of them asks for it by type or bean name |
| Rewiring.UnwantedUndisturbed | src/pyfly/container/container.py:79-84 | Binding an interface leaves a closed set of classes undisturbed when none of them wants the interface, singly or as a list |
| Rewiring.RegisterKeepsIff | src/pyfly/container/container.py:59-77 | Registering a new type that can be built keeps every bean of a closed set of built classes what plain construction gives if and only if none of their classes asks for the type, by itself or by its bean name |
| Rewiring.BuiltTooEarly | src/pyfly/container/container.py:234-244 | A bean with an optional dependency, built before the dependency is registered, has nothing there, while plain construction afterwards gives it the dependency |
| ApplicationContext.NewContext | src/pyfly/context/application_context.py:64-80 | From no requirement at all: a valid idle container in which the configuration and the container itself are registered with their instances |
| ApplicationContext.RegisterBeans | src/pyfly/context/application_context.py:86-90 | The registrations in order, each under its name, with the container valid after all of them |
| ApplicationContext.BeansSafe | src/pyfly/context/application_context.py:77-90 | After the constructor every sequence of registrations of other types disturbs nothing |
| ApplicationContext.GetBean | src/pyfly/context/application_context.py:100-102 | From every valid idle container, for every type: the plain outcome of its candidate, or the circular error if and only if that never ends |
| ApplicationContext.GetBeanByName | src/pyfly/context/application_context.py:104-106 | The same for a bean name |
| ApplicationContext.PublishResult | src/pyfly/context/application_context.py:415-436 | A factory result under its own class, bound to the return type, and under the return type if that is free, by the scope of the method |
| ApplicationContext.UnaskedResult | src/pyfly/context/application_context.py:415-436 | These three steps disturb nothing when the result's class is new and no class built so far asks for it or for the return type |
| ApplicationContext.ProcessMethod | src/pyfly/context/application_context.py:408-459 | A factory method succeeds exactly when each of its arguments is found by plain construction, and its result is then published |
| ApplicationContext.ProcessConfigurations | src/pyfly/context/application_context.py:375-436 | Configuration classes and their methods in turn: success exactly when every class can be built and every method called at its turn, with the container then valid where the graph-level account of startup says |
| ApplicationContext.EagerStart | src/pyfly/context/application_context.py:188-198 | For any order of the entries and whatever was deferred, startup leaves a singleton with an instance exactly when plain construction can build it, that instance being the plain one; it aborts only on a binding without registration |
| ApplicationContext.StartContext | src/pyfly/context/application_context.py:163-198 | From nothing to a started context: if each step leaves the classes built before it undisturbed, then on success every singleton, handed in or built at whatever moment, is what plain construction gives on the final graph; success is characterised exactly |
| BeanMethods.FindProducers | src/pyfly/context/application_context.py:462-522 | The producer map gives each produced type its last producing method |
| BeanMethods.BuildGraph | src/pyfly/context/application_context.py:462-522 | The dependency map holds, for every method, the in-class producers of its parameter types other than itself |
| BeanMethods.Kahn | src/pyfly/context/application_context.py:462-522 | The emitted names are distinct, each after everything it depends on; every name left out waits for another left out; without edges the order is the input order |
| BeanMethods.Release | src/pyfly/context/application_context.py:462-522 | One turn of the loop: the emitted node leaves every dependency set, in-degrees stay the sizes of those sets, and the queue holds exactly the free names not yet emitted |
| BeanMethods.CompleteMeansAcyclic | src/pyfly/context/application_context.py:462-522 | If every method is emitted the graph has no cycle |
| BeanMethods.IncompleteMeansCyclic | src/pyfly/context/application_context.py:462-522 | If a method is left out the graph has a cycle |
| BeanMethods.LengthDecides | src/pyfly/context/application_context.py:462-522 | The length test succeeds exactly when the graph is acyclic |
| BeanMethods.SortedMethods | src/pyfly/context/application_context.py:462-522 | Looking the ordered names up again gives a permutation of the methods |
| BeanMethods.ProducersFirst | src/pyfly/context/application_context.py:462-522 | In the sorted list every method comes after the producers of its parameters |
| BeanMethods.SortBeanMethods | src/pyfly/context/application_context.py:462-522 | Always a permutation; producers first whenever the graph is acyclic; the input unchanged when it is cyclic or has no edges |
| RateLimiter.BucketRefills | src/pyfly/resilience/rate_limiter.py:54-59 | Refilling lazily in one step or many gives the same bucket: the min-plus form of the tokens |
| RateLimiter.BucketAdmits | src/pyfly/resilience/rate_limiter.py:46-52 | An admission takes exactly one token off the min-plus form |
| RateLimiter.TokenIffConforms | src/pyfly/resilience/rate_limiter.py:46-66 | There is a token if and only if every window ending now has room for one more admission within burst plus rate times length |
| RateLimiter.NoWindowExceeds | src/pyfly/resilience/rate_limiter.py:28-37 | No window of the admitted calls, wherever it starts and ends, holds more than burst plus rate times length |
| RateLimiter.RateLimiter.Refill | src/pyfly/resilience/rate_limiter.py:54-59 | The stored tokens stay the min-plus form at the new time; admissions are untouched |
| RateLimiter.RateLimiter.Acquire | src/pyfly/resilience/rate_limiter.py:46-52 | Admitted exactly when the window law allows it, a function of the earlier admissions alone; a refused call changes no later decision |
| RateLimiter.RateLimiter.AvailableTokens | src/pyfly/resilience/rate_limiter.py:62-66 | The reported tokens are the min-plus form at that time, with no state change |
| Pointcut.CompileSegment | src/pyfly/aop/pointcut.py:46-72 | The loop builds the expression of the segment's wildcards and literals |
| Pointcut.GlobRegex | src/pyfly/aop/pointcut.py:61-72 | The expression of a partial glob matches exactly the dot-free strings the glob rules allow |
| Pointcut.ManySegments | src/pyfly/aop/pointcut.py:52-54 | The expression of a double star matches exactly the strings of one or more non-empty dot-free segments |
| Pointcut.JoinRegexDivides | src/pyfly/aop/pointcut.py:75-80 | A joined expression matches exactly when the name's segments can be divided among the pattern's |
| Pointcut.CompilePreservesMeaning | src/pyfly/aop/pointcut.py:21-80 | A pattern matches a qualified name if and only if the name's dot-split segments can be divided among the pattern's: double star one or more non-empty, star one non-empty, any other exactly one by glob rules |
| AspectRegistry.StableSortSorts | src/pyfly/aop/registry.py:100-101 | The sort orders the bindings by order |
| AspectRegistry.StableSortStable | src/pyfly/aop/registry.py:100-101 | Bindings of equal order keep their relative order |
| AspectRegistry.RegisteredOrder | src/pyfly/aop/registry.py:61-101 | After a registration the bindings are sorted and, within each order, earlier aspects come first and nothing is lost or duplicated |
| AspectRegistry.MatchingInOrder | src/pyfly/aop/registry.py:107-109 | Lookup gives exactly the matching bindings, in registry order |
| AspectRegistry.MatchingStable | src/pyfly/aop/registry.py:107-109 | Lookup and selection by order commute: same-order bindings are found in registration order |
| AspectRegistry.AspectRegistry.Register | src/pyfly/aop/registry.py:61-101 | Keeps the registry sorted and, for every order, appends the aspect's bindings after those already there |
| AspectRegistry.AspectRegistry.GetMatching | src/pyfly/aop/registry.py:107-109 | Sorted by order, and exactly the bindings whose pointcut matches |
| Weaver.SlotIsOnion | src/pyfly/aop/weaver.py:99-163 | For any handlers, running the chain through the one shared slot has the same trace and outcome as lexically nested handlers if and only if no handler but the innermost proceeds a second time in that run |
| Weaver.SecondProceedSkips | src/pyfly/aop/weaver.py:149-163 | A two-handler chain whose outer handler proceeds twice meets that condition's failure: nested handlers enter the inner one twice, the slot only once |
| Weaver.AtMostOnceEnough | src/pyfly/aop/weaver.py:149-163 | Handlers that proceed at most once on every path, short-circuiting and throwing included, meet that condition |
| Weaver.WrappedOrder | src/pyfly/aop/weaver.py:99-146 | With advice that does not throw: before, then the nested chain, then exactly one of after-returning and after-throwing, then after, the last two seeing the return value or exception on the join point, and the chain's outcome is the result |
| Weaver.SelectedInRegistryOrder | src/pyfly/aop/weaver.py:46-56 | Each of the five lists holds exactly the matching bindings of its advice type, by aspect order and, within one order, in registration order |
| Weaver.JoinPoint.Call | src/pyfly/aop/weaver.py:149-163 | A link overwrites the slot and runs its handler; trace, outcome and final slot are those of the slot semantics |
| Weaver.JoinPoint.Handle | src/pyfly/aop/weaver.py:156-161 | A handler body awaits whatever the slot holds at the time |
| Weaver.JoinPoint.RunAdvice | src/pyfly/aop/weaver.py:107-109 | Advice runs in order on what the join point shows, until one throws |
| Weaver.JoinPoint.Invoke | src/pyfly/aop/weaver.py:99-144 | The wrapper's whole control flow, including advice that throws in any phase, and the return value and exception it leaves on the join point, as the specification of before, guarded chain and finally |
| Weaver.CallWoven | src/pyfly/aop/weaver.py:40-83 | A method without matching bindings is called as it is; otherwise the wrapper runs the registry's bindings grouped by type |
| QueryParser.SuffixUnique | src/pyfly/data/query_parser.py:57-69 | No text ends with the suffixes of two different operators, so the order in which they are tried does not matter |
| QueryParser.ParseSinglePredicate | src/pyfly/data/query_parser.py:199-207 | The operator whose suffix the segment ends with, and the field before it; equality otherwise |
| QueryParser.PrintedSingle | src/pyfly/data/query_parser.py:199-207 | A printed predicate reads back as itself if and only if it is not an equality on a field that ends in an operator suffix |
| QueryParser.ParsePredicates | src/pyfly/data/query_parser.py:178-196 | The splitting loop reads the body as predicates and connectors |
| QueryParser.BodyLossless | src/pyfly/data/query_parser.py:178-196 | Printing what was read from any text gives back that exact text |
| QueryParser.ReadPartsWellFormed | src/pyfly/data/query_parser.py:178-196 | What is read from any text prints unambiguously |
| QueryParser.BodyRoundTrip | src/pyfly/data/query_parser.py:178-196 | A body with one connector fewer than predicates reads back as itself if and only if its segments hold no connector, none arises across their ends, and equalities end in no suffix |
| QueryParser.ReadBody | src/pyfly/data/query_parser.py:178-196 | Connectors number one fewer than predicates for every non-empty body |
| QueryParser.ParseOrder | src/pyfly/data/query_parser.py:158-175 | The index loops read order clauses up to each direction word |
| QueryParser.ClausesRoundTrip | src/pyfly/data/query_parser.py:158-175 | Order clauses whose fields are non-empty and hold no direction word read back as themselves |
| QueryParser.Parse | src/pyfly/data/query_parser.py:122-153 | Prefix, body and order clauses, or nothing for an unknown prefix |
| QueryParser.PrintParses | src/pyfly/data/query_parser.py:122-153 | A well-formed query printed and parsed is the same query |
| QueryParser.ParseNormalises | src/pyfly/data/query_parser.py:122-153 | For every accepted newline-free name, parsing, printing and parsing again gives the first result |
| QueryParser.RoundTripIffWellFormed | src/pyfly/data/query_parser.py:122-153 | A query survives printing and parsing if and only if its field words avoid connectors, operator suffixes, order markers and, in order fields, direction words |
| ConfigTree.DeepMerge | src/pyfly/core/config.py:203-211 | The merging loop computes the recursive merge |
| ConfigTree.MergeLaw | src/pyfly/core/config.py:203-211 | A scalar is at a path of the merge exactly when the override has it there, or the base has it and the override defines nothing at the path and no scalar above it |
| ConfigTree.FromSources | src/pyfly/core/config.py:86-135 | Defaults and files are folded from the left |
| ConfigTree.LayeredLaw | src/pyfly/core/config.py:105-131 | A scalar is at a path of the layered result if and only if some source has it there, no later source defines the path and none has a scalar above it |
| ConfigTree.MergeAssociativeIff | src/pyfly/core/config.py:203-211 | Merging three layers does not depend on the grouping if and only if nowhere a leaf of the middle layer stands between two mappings of which the last does not cover the first |
| ConfigTree.MergeOrderMatters | src/pyfly/core/config.py:203-211 | Three concrete layers that fail that condition, and whose two groupings differ |
| ConfigTree.Get | src/pyfly/core/config.py:228-237 | The loop walks the dotted parts of the key |
| ConfigTree.LookupIsAt | src/pyfly/core/config.py:228-237 | For values other than None the walk finds exactly what is at the path |
| ConfigTree.Flatten | src/pyfly/admin/providers/env_provider.py:43-51 | With non-empty dot-free keys the result lists exactly the leaves, each under its dotted path |
| ConfigTree.FlattenAgreesWithGet | src/pyfly/admin/providers/env_provider.py:43-51 | A flattened entry and the dotted lookup of its key agree, both ways |
| Placeholders.ExpansionUnique | src/pyfly/core/config.py:245-294 | The unbounded substitution of a value, when it exists, is unique |
| Placeholders.ResolveIsSubstitution | src/pyfly/core/config.py:245-294 | Resolution returns a string if and only if it is the full substitution and its nesting fits the remaining depth |
| Placeholders.DepthIrrelevant | src/pyfly/core/config.py:245-294 | A returned string does not depend on the starting depth |
| Placeholders.FailsIffDefect | src/pyfly/core/config.py:245-294 | Resolution fails if and only if some chain of references from the value is longer than the depth left or ends in an undefined reference; so references at most eleven values deep, all defined, always resolve |
| Placeholders.CycleNeverResolves | src/pyfly/core/config.py:245-294 | A value that reaches a reference cycle with no environment override on it always fails |
| Converters.RoundTrip | src/pyfly/web/converters.py:100-171 | For every JSON-like value, parsing the tree built from it gives the normal form of the value under the root tag |
| Converters.NormFixesCanonical | src/pyfly/web/converters.py:100-171 | The normal form leaves a value alone if and only if the value is canonical |
| Converters.NormIdempotent | src/pyfly/web/converters.py:100-171 | Normalising twice is normalising once, and the normal form is canonical, if and only if the data leaves some element: it is not a dictionary or list all of whose members are lists of nothing but such lists |
| Converters.BuildElement | src/pyfly/web/converters.py:100-115 | Attaches to the parent, after its existing children, a fresh tree equal to the specification's |
| Converters.DictToXml | src/pyfly/web/converters.py:118-140 | Returns a fresh element tree equal to the specification's for every kind of root value |
| Converters.ElementToDict | src/pyfly/web/converters.py:143-161 | The value of an element tree, repeated tags collected into lists as they come |
| Converters.WriteThenRead | src/pyfly/web/converters.py:164-171 | Writing and reading back through mutable elements gives the root tag with the normal form of the data |
| SecurityExpressions.RewriteText | src/pyfly/security/decorators.py:145-163 | On rendered text each substitution replaces every call of its own kind and nothing else, for names in which no earlier call starts |
| SecurityExpressions.QuotedArguments | src/pyfly/security/decorators.py:30-39 | The names read back from an argument list are the names written |
| SecurityExpressions.CleanReads | src/pyfly/security/decorators.py:166-168 | The spaced text splits into exactly the tokens of the expression, all safe |
| SecurityExpressions.ParseSpelled | src/pyfly/security/decorators.py:72-115 | At each level of Python's precedence, the tokens of an expression parse to a tree with its truth value, leaving what follows |
| SecurityExpressions.ChainSpelled | src/pyfly/security/decorators.py:42-69 | Operands joined by one operator are collected from left to right into one node that folds them |
| SecurityExpressions.EvaluateRendered | src/pyfly/security/decorators.py:118-176 | Every expression over role, any-role, permission and authenticated atoms with not, and, or and parentheses, rendered to text and evaluated as text, has its truth value; names are not empty and hold no quote, names in a list hold no closing parenthesis, and no earlier call starts in the other names |
| SecurityExpressions.RoleReadsIff | src/pyfly/security/decorators.py:150-159 | A role check is read as itself in every context if and only if its name is not empty, holds no quote, and no any-role call with an argument starts in it |
| SecurityExpressions.MisreadRole | src/pyfly/security/decorators.py:150-154 | A concrete role name in which such a call starts is misread |
| SecurityExpressions.PermissionReadsIff | src/pyfly/security/decorators.py:150-164 | A permission check is read as itself in every context, alone and before any other expression, if and only if moreover its name does not end in the opening of a role call |
| SecurityExpressions.ListedRoleReadsIff | src/pyfly/security/decorators.py:149-154 | An any-role check on a list of names is read as itself in every context if and only if there are names and each is non-empty and holds neither a quote nor a closing parenthesis |
| Resilience.ProbesAreSpaced | src/pyfly/client/circuit_breaker.py:60-85 | In a sequential run each failure after the opening comes at least one recovery timeout after the one before |
| Resilience.FailuresBounded | src/pyfly/client/circuit_breaker.py:60-103 | In every sequential run the failures since the last success are at most the threshold plus the whole recovery timeouts since opening |
| Resilience.InvocationsBounded | src/pyfly/client/circuit_breaker.py:70-103 | When every real invocation fails, that bounds the real invocations |
| Resilience.BoundReached | src/pyfly/client/circuit_breaker.py:70-103 | For every number of probes some run meets the bound exactly |
| Resilience.CircuitBreaker.StateMeaning | src/pyfly/client/circuit_breaker.py:60-68 | The visible state is closed exactly below the threshold and open exactly when a call would be turned away |
| Resilience.CircuitBreaker.OnSuccess | src/pyfly/client/circuit_breaker.py:87-91 | The fields again describe the completed calls, in whatever order overlapping calls complete |
| Resilience.CircuitBreaker.OnFailure | src/pyfly/client/circuit_breaker.py:93-103 | Likewise for a counted failure: open exactly when failures since the last success reach the threshold |
| Resilience.CircuitBreaker.Enter | src/pyfly/client/circuit_breaker.py:70-75 | A call is let through exactly when the circuit is closed or has recovered, by the calls completed so far, and entering changes nothing |
| Resilience.CircuitBreaker.Leave | src/pyfly/client/circuit_breaker.py:77-85 | Whatever entered and left in between, the fields describe the completed calls; another breaker's rejection is not counted |
| Resilience.CircuitBreaker.Call | src/pyfly/client/circuit_breaker.py:70-85 | Turned away without an invocation exactly when the circuit is open and not recovered; otherwise one invocation, whose outcome is returned; another breaker's rejection is not counted |
| Resilience.RetryPolicy.Execute | src/pyfly/client/retry.py:43-58 | All attempts but the last are retriable failures, the last decides, a retriable last one means all attempts were used; n attempts sleep base times two to the n minus one, less one; no attempts give the TypeError of raising nothing |
| Resilience.Attempt | src/pyfly/client/post_processor.py:140-143 | The inner call goes through the breaker when there is one, and is rejected exactly when the breaker does not admit it |
| Resilience.ResilientImpl | src/pyfly/client/post_processor.py:128-149 | Retries outside, breaker inside: every attempt passes the breaker, and only admitted ones reach the service |
| Resilience.ClientRun | src/pyfly/client/post_processor.py:128-149 | However many calls a client issues, whenever, and however often each is retried, the failures since the last success stay within the bound; if the service always fails they are all the calls it ever saw |
| OverlappingCalls.EveryArrivalAdmitted | src/pyfly/client/circuit_breaker.py:70-75 | Once the circuit has recovered, all calls that arrive before one completes are let through as probes, however many |
| OverlappingCalls.ManyProbes | src/pyfly/client/circuit_breaker.py:35-46 | For every number some run has that many probes in flight, so the single-probe promise of the description fails |
| OverlappingCalls.SingleProbeIffCallersWait | src/pyfly/client/circuit_breaker.py:60-85 | At most one probe is ever in flight if and only if nobody calls the half-open breaker while a probe is in flight |
| OverlappingCalls.OverlappingFailuresBounded | src/pyfly/client/circuit_breaker.py:60-103 | With at most c calls in flight the failures since the last success are at most the threshold, the c - 1 others in flight at the opening, and c for every whole recovery timeout since |
| OverlappingCalls.RunBounded | src/pyfly/client/circuit_breaker.py:60-103 | Every interleaving of arrivals and completions, in order of time and with at most c in flight, stays within that bound |
| OverlappingCalls.OverlappingBoundReached | src/pyfly/client/circuit_breaker.py:60-103 | The bound is exact: for every number of calls in flight and of recovery timeouts some run in order of time meets it |
| OverlappingCalls.PlayActions | src/pyfly/client/circuit_breaker.py:70-103 | The breaker's own fields follow every interleaving: after it they describe the calls completed, and the calls in flight are those it let through |
| Cache.ServedUntilExpiry | src/pyfly/cache/adapters/memory.py:33-51 | A stored value is served up to its expiry time, that instant included, and never after it |
| Cache.ReadCoherent | src/pyfly/cache/decorators.py:46-67 | Over a coherent cache a decorated read returns what the undecorated read would and leaves the cache coherent |
| Cache.NextCoherent | src/pyfly/cache/decorators.py:100-149 | Reads, evicting, putting and clearing updates and clock advances all keep the cache coherent |
| Cache.MemoryHonest | src/pyfly/cache/adapters/memory.py:33-69 | Over the in-memory cache every run of decorated reads is honest, with injective keys |
| Cache.ManagerHonestIffSteady | src/pyfly/cache/manager.py:39-77 | Behind the manager every run is honest if and only if the primary, once it has refused an operation after one that took effect, never serves again; an operation may also take effect and raise |
| Cache.CrashStopSteady | src/pyfly/cache/manager.py:27-33 | A primary that serves up to some operation and nothing from then on, whether or not its failing operations take effect, is such a primary |
| Cache.StaleRead | src/pyfly/cache/manager.py:50-57 | A primary that takes effect, refuses and serves again answers with a value the source no longer has, in a concrete run |
| Cache.InMemoryCache.Get | src/pyfly/cache/adapters/memory.py:33-44 | The stored value unless missing or past its expiry, in which case the entry is dropped |
| Cache.InMemoryCache.Put | src/pyfly/cache/adapters/memory.py:46-51 | Stores the value with its expiry time and nothing else |
| Cache.InMemoryCache.Evict | src/pyfly/cache/adapters/memory.py:53-58 | Removes the key and says whether it was stored, expired or not |
| Cache.InMemoryCache.Exists | src/pyfly/cache/adapters/memory.py:60-69 | True exactly for a stored entry not past its expiry; drops the same entries as a lookup |
| Cache.InMemoryCache.Clear | src/pyfly/cache/adapters/memory.py:82-84 | Removes everything |
| Cache.CacheManager.Get | src/pyfly/cache/manager.py:39-48 | The primary's value when it answers with one, otherwise the fallback's |
| Cache.CacheManager.Put | src/pyfly/cache/manager.py:50-57 | Written to the fallback always and to the primary unless it refuses |
| Cache.CacheManager.Evict | src/pyfly/cache/manager.py:59-68 | Evicted from the fallback always and from the primary unless it refuses; true when the fallback or an answering primary had it |
| Cache.CacheManager.Clear | src/pyfly/cache/manager.py:70-77 | Both cleared, the primary unless it refuses |
| Cache.Service.Cached | src/pyfly/cache/decorators.py:46-67 | The decorated read over either adapter is one read step of the model |
| Cache.Service.UpdateEvicting | src/pyfly/cache/decorators.py:100-116 | The function runs first, then its key is evicted |
| Cache.Service.UpdateClearing | src/pyfly/cache/decorators.py:100-116 | With all entries, the function runs first, then the cache is cleared |
| Cache.Service.UpdatePutting | src/pyfly/cache/decorators.py:136-149 | The function always runs and its result is stored under its key |
| OpenApi.RewriteMoves | src/pyfly/web/openapi.py:286-298 | The references after rewriting are exactly the references before it, each moved to the components |
| OpenApi.RewriteIdempotent | src/pyfly/web/openapi.py:286-298 | Rewriting a second time changes nothing |
| OpenApi.RegisteredClosed | src/pyfly/web/openapi.py:257-276 | Registering a model closed over its own definitions keeps all components resolvable, whatever names were taken; it changes no existing component, and repeating it changes nothing |
| OpenApi.ValidationClosed | src/pyfly/web/openapi.py:278-283 | Adding the validation schemas keeps all components resolvable, also when a user model has taken one of their names |
| OpenApi.ValidationRefs | src/pyfly/web/openapi.py:29-64 | The outer validation schema refers to the inner one and to nothing else |
| OpenApi.HoistedEntries | src/pyfly/web/openapi.py:264-272 | Each definition is hoisted, rewritten, under its own name unless that name is taken; nothing else is added or changed |
| OpenApi.OperationRefs | src/pyfly/web/openapi.py:151-251 | An operation refers to exactly its return model, its body model and the validation error, as its status and body call for |
| OpenApi.AfterRouteClosed | src/pyfly/web/openapi.py:151-251 | After a route its operation's references are registered and the components still closed |
| OpenApi.EveryReferenceResolves | src/pyfly/web/openapi.py:151-298 | For any list of routes whose models are closed over their definitions, every reference in the paths and components names a component (section 4.8.7 of the OpenAPI Specification 3.1.0) |
| OpenApi.NoneLeftBehind | src/pyfly/web/openapi.py:286-298 | No resolving reference still points into a model's own definitions |
| OpenApi.OpenAPIGenerator.RegisterModel | src/pyfly/web/openapi.py:257-276 | The hoisting loop: definitions not yet present, then the model itself, and the reference to it |
| OpenApi.OpenAPIGenerator.EnsureValidationSchemas | src/pyfly/web/openapi.py:278-283 | Adds each validation schema unless its name is taken |
| OpenApi.OpenAPIGenerator.BuildResponses | src/pyfly/web/openapi.py:205-251 | The responses of a route, and exactly the schemas they need registered |
| OpenApi.OpenAPIGenerator.BuildPaths | src/pyfly/web/openapi.py:151-199 | The paths and the components of all routes, a later route replacing an earlier one with the same path and method |
| OpenApi.OpenAPIGenerator.Generate | src/pyfly/web/openapi.py:95-117 | Starting over each time, every reference in the result resolves |
| LogStream.RunValid | src/pyfly/admin/log_handler.py:56-79 | In every run of emits, clears and stream actions the buffered ids are a contiguous run ending at the counter, delivered ids strictly increase, and every id emitted is delivered or fetched, lost, or waiting, and never both lost and kept |
| LogStream.RunAuthentic | src/pyfly/admin/api/sse.py:98-112 | Each delivered record carries the message logged under its id |
| LogStream.NothingLostIffPrompt | src/pyfly/admin/api/sse.py:98-112 | Nothing is lost if and only if every emit finds fewer unfetched records than the capacity and every clear finds none |
| LogStream.PromptDelivery | src/pyfly/admin/api/sse.py:98-112 | Then the client receives everything logged, in order, without gaps or repeats |
| LogStream.TimelyIsPrompt | src/pyfly/admin/api/sse.py:98-112 | No clears and at most the capacity in emits between fetches is enough |
| LogStream.AdminLogHandler.Emit | src/pyfly/admin/log_handler.py:56-69 | The next id, appended to a bounded deque that drops from the left |
| LogStream.AdminLogHandler.GetRecords | src/pyfly/admin/log_handler.py:71-73 | The records after an id, in order |
| LogStream.AdminLogHandler.Clear | src/pyfly/admin/log_handler.py:78-79 | The buffer is emptied and the counter kept |
| LogStream.LogfileStream.Advance | src/pyfly/admin/api/sse.py:98-112 | Between suspension points the stream either fetches after its cursor or hands over one record and moves the cursor to it |

## Left out

- ApplicationContext.StartContext: every step has to leave the classes built before it undisturbed; otherwise the code keeps the stale bean (`Rewiring.BuiltTooEarly`), and what it resolves from then on is not described. Removals between the two rounds of configuration classes are not among its steps.
- Container.Container.HandIn: a handed-in instance is one opaque object per type, so a factory result registered under two types, or two results of one class, are not told apart from others of that type.
- BeanMethods.Kahn: attribute names are distinct, as the keys of the source's dictionary are.
- OpenApi.RegisteredClosed: a model's schema arrives with its `$defs` already taken apart, and definition names hold no `#`; parameters hold no references.
- Converters.RoundTrip: stated on element trees; writing them out as characters and reading them back is not modelled, so neither is an empty text read back as none.
- REQUEST scope, value-injected fields, metrics, locks, message texts and name suggestions of the container.
- Constructors and post-processing of beans: a construction is the tree of its class, arguments and fields.
- Python reflection, module scanning, file and YAML loading, profiles and condition evaluation: their results are the data the model starts from.
- Regular-expression syntax and escaping: patterns compile to a syntax tree with a denotational meaning.
- Handler code in advice beyond notes, exceptions and, around, proceeding and branching; advice that writes to the join point; a captured older proceed reference. Around advice on synchronous methods, which the source does not support, and its wrapper (`src/pyfly/aop/weaver.py:166-213`), which is the asynchronous one without a chain.
- Floating-point rounding: times, rates and delays are reals.
- Environment overrides, defaults and type coercion in configuration lookup; `get_section` and `bind`.
- Limits of Python's own parser on nesting depth in security expressions, and the `secure` wrapper around the evaluation.
- Statistics and key listing of the in-memory cache, which disagree with lookups at the instant of expiry.
- OpenAPI discriminator mappings, info and tag lists, and the faithfulness of recursive model schemas; method names arrive in lower case.
- Parsing of log message text, event formatting and the other event streams; the trace stream's cursor, which stalls once its buffer is full.
- Building breakers and retry policies from configuration values.
- Saga and TCC engines, message brokers, data adapters, the command line, HTTP, Redis and metrics adapters.
