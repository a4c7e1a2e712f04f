# Ability-graph generator, modelled in Dafny

This project models the core of a prototype random "superpower" generator and proves properties of it. The generator has two halves:

- **`powers2.py`: ability graphs.**
  - A library of node types. Each type has input value types, output value types and one description template per output.
  - A bidirectional breadth-first search (`findValidNodeTypes`) for node-type sequences that lead from the universal sources to a `GameEffect`.
  - `PowerGraph.FromListOfNodeTypes`, the assembler. It instantiates such a sequence by binding each input to an unused value of its type.
  - `Node.__init__`, `Node.bake` and `Node.values`, which create outputs and fill in their descriptions.
  - `PowerGraph.description`.
  - `createUniquePowers`, which keeps graphs whose sorted node-class signature has not been seen yet.
- **`powers.py`: applicators and consumers.**
  - The matching predicates.
  - `createConverter`, which picks distinct input positions whose types match the requested outputs, and the function it returns.
  - The signatures and `prettyprint`.
  - `generateAllPowers`, which renders every applicator/consumer pair that converts.

## Modules

- **`Wrappers` (`wrappers.dfy`):** `Option` and `Result`.
- **`Templates` (`templates.dfy`):** Python format strings with only positional slots.
  - A template is a sequence of literal pieces and `{i}` slots.
  - `Format` is `str.format`. It raises `IndexError` exactly when a slot names a missing argument.
- **`Library` (`library.dfy`):**
  - `Ty` holds the value types. `NodeKind` holds the declared `Node` subclasses.
  - `Descriptor` gives each class's `INTYPES`, `OUTTYPES` and `FORMATSTRINGS`.
  - Also here: the lists `universals`, `input_nodetypes`, `converter_nodetypes`, `game_effects` and `nodetypes`, and the registry check run at import.
  - Classes that the source keeps inside string literals are not declared.
- **`Subsets` (`subsets.dfy`):** `itertools.combinations` and the `powerset` built from them.
- **`Search` (`search.dfy`):** `findValidNodeTypes`.
  - States are sets of types, as `frozenset` makes them.
  - The search is breadth first from both ends and keeps no visited set. It yields every join it meets, not just one sequence.
  - The two queues and the two `defaultdict(list)` caches are fields of the class `BidirectionalSearch`.
  - Its methods `ProcessForward` and `ProcessBackward` are `process_forwardq` and `process_backwardq`. `Step` is one turn of the main loop, and `Run` is the loop itself.
  - Each step, each turn and each fuel-bounded run has a reference function: `ForwardRound`, `BackwardRound`, `Round` and `Rounds`. The methods are proved equal to these functions.
  - The queues and caches keep a proved invariant.
  - Node types have no optional inputs.
  - The prefix cache keeps the source's quirk:
    - the initial prefixes are filed under the *tuple* of their outputs;
    - later prefixes are filed under a *frozenset*;
    - lookups use frozensets, so an initial prefix is never joined with a suffix from the prefix cache.
- **`Assembly` (`assembly.dfy`):** concrete graphs in an arena.
  - `PowerGraph.values` holds the `TypedValue`s. `PowerGraph.nodes` holds the `Node` instances.
  - A value stores the index of the node that produced it, and a node stores the indices of its arguments and outputs.
  - The pools `unused_vars` and `used_vars` are sets of value indices. `random.choice` becomes an arbitrary choice (`:|`).
  - `random.choice` on an empty list raises `IndexError`, which ends `FromListOfNodeTypes`. Here the method returns `None` instead, exactly when some input cannot be bound. `SearchOutputAssembles` proves this never happens for a sequence that applies forward from the empty state.
- **`UniquePowers` (`unique_powers.dfy`):** `createUniquePowers`.
  - The graph producer and the predicate are parameters.
  - Duplicates are detected by the signature: the sorted tuple of a graph's node classes, not its wiring. The signature is an insertion sort by a rank on node classes.
  - After `100 * n` attempts the generator simply stops, possibly with fewer than `n` graphs. It raises no error.
- **`Powers` (`powers.dfy`):** all of `powers.py` that is listed above, with its applicator and element tables as constants.

## Model

| member | source | states |
|---|---|---|
| Templates.Format | powers2.py:88-91 | `str.format` with positional slots. It succeeds exactly when every slot index is below the argument count. Otherwise the error names the first slot of the template, left to right, whose index is out of range |
| Templates.FormatAppend | powers2.py:88-91 | formatting a concatenated template is the concatenation of the two formatted parts |
| Templates.FormatOnlyReadsSlots | powers2.py:88-91 | the result depends only on the arguments the template names |
| Templates.FormatLength | powers2.py:88-91 | the formatted string's length is the literal lengths plus the lengths of the substituted descriptions |
| Library.RegistryCheck | powers2.py:286-292 | the import-time check succeeds exactly when every declared node class is listed in `nodetypes` or `universals`; on failure it names an unlisted declared class |
| Library.EveryKindListed | powers2.py:114-281 | every declared node class appears in `universals` or in `nodetypes` |
| Library.LibraryIsRegistered | powers2.py:284-292 | importing the library does not raise: the registry check passes on the declared classes |
| Library.LibraryWellFormed | powers2.py:99-279 | every node class has one template per output, only slot indices below its input count, no repeated input type, and no inputs exactly when it is a universal |
| Library.UniversalsHaveNoInputs | powers2.py:114-281 | the universals take no inputs and every searchable node type takes at least one |
| Library.NodeTypesWellFormed | powers2.py:281 | every entry of `nodetypes` is well formed and has distinct input types |
| Subsets.CombinationsAreSubsequences | powers2.py:304 | every `combinations(s, r)` entry has length `r` and is an order-preserving subsequence of `s` |
| Subsets.CombinationsCount | powers2.py:304 | `combinations(s, r)` has `C(len(s), r)` entries |
| Subsets.PowersetProperties | powers2.py:301-304 | `powerset` of an n-element list yields exactly 2^n entries: each is an order-preserving subsequence, and every order-preserving subsequence appears |
| Subsets.CombinationsComplete | powers2.py:301-304 | every order-preserving subsequence of the list is among `combinations(s, r)` for r its length |
| Search.CanAddForwardIff | powers2.py:326-328 | a node type extends a forward state exactly when every input type is in the state and no input type is listed twice (a set holds each type once) |
| Search.CanAddBackwardIff | powers2.py:350-353 | a node type extends a backward target exactly when the target is contained in its outputs |
| Search.BackwardStepIsInputs | powers2.py:357 | when the step is allowed, the new target `(target - outputs) \| inputs` is the set of the node's inputs |
| Search.ChainSnoc | powers2.py:330-334 | appending a node to a prefix applies one more forward step: successor `(state - inputs) \| outputs` |
| Search.ChainAppend | powers2.py:324 | applying a prefix and then a suffix is applying their concatenation |
| Search.RunSources | powers2.py:306-311 | a subset of the universals applies from any state and adds exactly their outputs |
| Search.SuffixRunsForward | powers2.py:344-367 | a suffix built backward from the end type applies forward from any state containing its target and produces the end type |
| Search.AbilityIsSound | powers2.py:321-324 | every emitted sequence applies forward from the empty state and its final state holds the end type |
| Search.JoinIsAbility | powers2.py:321-324 | a forward prefix whose state equals a backward suffix's target joins into an emitted sequence |
| Search.InitialEntriesOk | powers2.py:306-311 | every initial forward entry is a valid prefix |
| Search.CacheInitialShape | powers2.py:311 | the initial prefix cache has only tuple keys, each holding subsets whose outputs are that tuple |
| Search.InitialInvariant | powers2.py:306-315 | the initial queues and caches satisfy the search invariant |
| Search.ForwardSuccessorsStep | powers2.py:330-342 | one node type of the forward loop is queued, with the appended prefix, exactly when it fits and the predicate holds for the successor |
| Search.BackwardSuccessorsStep | powers2.py:355-367 | one node type of the backward loop is queued, with the prepended suffix, exactly when it covers the target and the predicate holds |
| Search.ExtendSuffix | powers2.py:355-358 | prepending a node type that covers the target keeps the suffix valid |
| Search.JoinedSuffixesAreAbilities | powers2.py:321-324 | everything the forward step yields is an emitted sequence in the sense of `IsAbility` |
| Search.JoinedPrefixesAreAbilities | powers2.py:347-349 | everything the backward step yields is an emitted sequence in the sense of `IsAbility` |
| Search.PopForward | powers2.py:320 | the dequeued forward entry is a valid prefix and the rest of the queue keeps the invariant |
| Search.PushForward | powers2.py:341-342 | queueing and caching a valid prefix keeps the invariant |
| Search.PopBackward | powers2.py:346 | the dequeued backward entry is a valid suffix and the rest keeps the invariant |
| Search.PushBackward | powers2.py:366-367 | queueing and caching a valid suffix keeps the invariant |
| Search.ForwardSuccessorsOk | powers2.py:330-342 | every forward successor is a valid, non-empty prefix ending in a library node type |
| Search.BackwardSuccessorsOk | powers2.py:355-367 | every backward successor is a valid suffix |
| Search.PushForwardAll | powers2.py:341-342 | queueing and caching all forward successors keeps the invariant |
| Search.PushBackwardAll | powers2.py:366-367 | queueing and caching all backward successors keeps the invariant |
| Search.ForwardRoundOk | powers2.py:319-342 | a forward step keeps the search invariant. When the start types take no inputs, everything it yields is an ability |
| Search.BackwardRoundOk | powers2.py:344-367 | a backward step keeps the search invariant. When the start types take no inputs, everything it yields is an ability |
| Search.RoundsSound | powers2.py:368-374 | for any amount of fuel, the main loop keeps the search invariant. When the start types take no inputs, everything it yields is an ability |
| Search.CollectForward | powers2.py:330-342 | the loop over `nodetypes` appends exactly the forward successors to the queue and caches each under its frozenset |
| Search.CollectBackward | powers2.py:355-367 | the loop over `nodetypes` appends exactly the backward successors to the queue and caches each under its state |
| Search.SeedForward | powers2.py:306-311 | queues every subset of the start types and caches it under the tuple of its outputs |
| Search.BidirectionalSearch.constructor | powers2.py:306-315 | the initial queues and caches (the end type alone on the backward side) and the invariant |
| Search.BidirectionalSearch.ProcessForward | powers2.py:319-342 | pops the head entry. It yields its prefix joined with every suffix cached under its state, then queues and caches exactly its successors, leaving the backward side alone; all of this is `ForwardRound` of the old frontier. Validity is kept, and when the start types take no inputs, every yield is sound |
| Search.BidirectionalSearch.ProcessBackward | powers2.py:344-367 | the symmetric step, equal to `BackwardRound` of the old frontier. Lookups use the frozenset key, so initial prefixes filed under a tuple are never found. Validity and soundness are as for the forward step |
| Search.BidirectionalSearch.Step | powers2.py:368-374 | one turn of the main loop: the forward step when its queue is non-empty, then the backward step likewise; yields and new frontier are `Round` of the old one, so the remaining rounds of `Rounds` are its yields followed by the rounds after it |
| Search.BidirectionalSearch.Run | powers2.py:368-374 | its yields and final queues and caches are exactly `Rounds` of the starting frontier. That is the concatenated yields of each turn while fuel remains and either queue is non-empty. The invariant and soundness of these yields are `RoundsSound` |
| Search.FindValidNodeTypes | powers2.py:294-374 | with the default arguments (the universals, `GameEffect`, fewer than 4 types), the yielded sequences are exactly `Rounds` from the initial frontier, and each applies forward from nothing and produces a `GameEffect` |
| Assembly.OldNodeKept | powers2.py:77-86 | allocating a node leaves the earlier nodes well formed |
| Assembly.NewNodeWellFormed | powers2.py:77-86 | the new node owns its outputs, typed by its output types, and takes earlier values as arguments |
| Assembly.AppendNodeKeepsArena | powers2.py:77-86 | allocating a node keeps the arena a well-formed graph |
| Assembly.SameShapeKeepsArena | powers2.py:88-91 | changing only descriptions keeps the arena well formed |
| Assembly.BakeOutputs | powers2.py:90-91 | writing descriptions changes no value's type or source |
| Assembly.BakeFrame | powers2.py:90-91 | values other than the node's outputs are untouched |
| Assembly.BakeOutputsAt | powers2.py:90-91 | output `j` receives template `j` formatted with the argument descriptions |
| Assembly.BakeOutputsStops | powers2.py:90-91 | with distinct outputs, when template j is the first that raises, the loop over the whole node leaves output j and every later output as they were |
| Assembly.BakeOutputsTwice | powers2.py:88-91 | writing the same descriptions twice is writing them once |
| Assembly.BakeIdempotent | powers2.py:88-91 | baking a node twice gives the same values as baking it once |
| Assembly.BakedDescriptions | powers2.py:88-91 | for a well-formed library node, `bake` does not raise and output `j`'s description is template `j` with each `{k}` replaced by argument `k`'s description |
| Assembly.BakedValues | powers2.py:93-94 | after `bake`, `values()` (`PowerGraph.Values`: the output descriptions, in order) of a well-formed library node is the list of its formatted templates |
| Assembly.WriteDescriptions | powers2.py:90-91 | the loop of `bake` produces `BakeOutputs` and reports failure exactly when a reached template names a missing argument |
| Assembly.CountRemove | powers2.py:390 | removing a value from the pool lowers the count of its type by one and no other count |
| Assembly.CountAdd | powers2.py:395-396 | adding a value raises the count of its type by one and no other count |
| Assembly.CountPositive | powers2.py:389 | the pool has a value of type `t` exactly when the count of `t` is positive |
| Assembly.TracksRemove | powers2.py:390 | the type bag still counts the pool after a removal |
| Assembly.TracksAdd | powers2.py:395-396 | the type bag still counts the pool after an addition |
| Assembly.TracksHas | powers2.py:389 | `random.choice` has a candidate exactly when the bag holds the type |
| Assembly.PrefixShort | powers2.py:388-389 | a type whose values have run out means the node's inputs do not fit in the pool |
| Assembly.PrefixGrow | powers2.py:388-392 | binding one more input consumes one value of its type from the bag |
| Assembly.BindingAfterAdd | powers2.py:386-396 | after a step the pools stay disjoint, cover every value, hold every bound argument in `used`, and no value is bound twice |
| Assembly.BindStep | powers2.py:388-392 | one iteration of the input loop keeps the bound arguments distinct, typed and drawn from the pool, and keeps the bag counting the pool |
| Assembly.BindInputs | powers2.py:387-392 | binds the inputs exactly when their types fit in the pool, one distinct unused value of each input's type in order, moving them from `unused` to `used` |
| Assembly.AddValues | powers2.py:395-396 | adds the node's outputs to the pool and their types to the bag |
| Assembly.ChainIsFeasible | powers2.py:381-400 | a sequence that applies forward from a state can be assembled from any pool that holds every type of that state |
| Assembly.SearchOutputAssembles | powers2.py:381-400 | every sequence that applies forward from the empty state can be assembled: `random.choice` never raises on it |
| Assembly.EffectDescriptionsAppend | powers2.py:402-408 | collecting the `GameEffect` descriptions over two node orders concatenates them |
| Assembly.EffectDescriptionsSplit | powers2.py:402-408 | the collected descriptions split around any one node |
| Assembly.EffectDescriptionsPermutation | powers2.py:402-408 | the collected descriptions are the same multiset whatever order the node set is iterated in |
| Assembly.PowerGraph.Description | powers2.py:402-408 | `description()` joins the `GameEffect` descriptions with `". "`, visiting each node once in the set's iteration order. Whatever that order, the parts joined are those of node order `0, 1, ...`, rearranged (partner: `EffectDescriptionsPermutation`) |
| Assembly.PowerGraph.constructor | powers2.py:382-384 | an empty graph with no values |
| Assembly.PowerGraph.NewNode | powers2.py:77-86 | `nodetype(*args)`: fails exactly when a zipped argument has the wrong type, changing nothing; otherwise appends the node with its arguments unchanged and allocates one fresh output per output type |
| Assembly.PowerGraph.Bake | powers2.py:88-91 | the new values are `Baked` of the old ones; succeeds exactly when no reached template names a missing argument |
| Assembly.PowerGraph.ChooseArguments | powers2.py:387-392 | the input loop of `addNodeType` on the graph's values, with `BindInputs`'s contract |
| Assembly.PowerGraph.ReleaseOutputs | powers2.py:395-396 | adds a node's outputs to the unused pool |
| Assembly.PowerGraph.AddNodeType | powers2.py:386-396 | succeeds exactly when the node's inputs fit in the pool. Then it appends one node of that type whose arguments came from the pool, and appends exactly its fresh outputs, described `"uninitialized"`, leaving the old values untouched. It moves the arguments to `used`, adds the outputs to `unused`, and keeps the pool invariants |
| Assembly.RealizesSnoc | powers2.py:392-394 | one more node realises one more entry of the sequence |
| Assembly.FromListOfNodeTypes | powers2.py:381-400 | returns a graph exactly when every input can be bound in turn. The graph is well formed, has one node per entry of the sequence, binds no value twice, and has every value still `"uninitialized"` |
| UniquePowers.DeclarationRankInjective | powers2.py:441 | declaration order ranks distinct classes differently |
| UniquePowers.InsertPermutes | powers2.py:441 | insertion adds exactly one occurrence of the element |
| UniquePowers.InsertSorted | powers2.py:441 | inserting into a sorted tuple keeps it sorted and adds exactly the element |
| UniquePowers.SignatureSorted | powers2.py:441 | the signature is sorted and holds each class of the graph as often as it occurs |
| UniquePowers.SortedUnique | powers2.py:441 | two sorted rearrangements of the same classes are equal |
| UniquePowers.SignatureIff | powers2.py:441-442 | two graphs have the same signature exactly when they hold the same classes, each as often |
| UniquePowers.YieldsAccepted | powers2.py:439-445 | every kept graph came from some attempt and was accepted by the predicate |
| UniquePowers.YieldsDistinct | powers2.py:441-445 | no two kept graphs have the same multiset of classes |
| UniquePowers.YieldsComplete | powers2.py:441-445 | every accepted attempt's signature is among the kept ones |
| UniquePowers.CreateUniquePowers | powers2.py:434-446 | at most `n` graphs in at most `100 * n` attempts, all attempts used when fewer than `n` are kept; every kept graph accepted, no two sharing a signature, and every accepted attempt represented |
| Powers.Prettyprint | powers.py:94 | formats the consumer's string with the argument descriptions; raises exactly when a slot is out of range |
| Powers.ConvertibleIff | powers.py:147-148 | `set(outTypes) <= set(inTypes)` exactly when every output type occurs among the inputs |
| Powers.MatchesIsConvertible | powers.py:144-148 | `applicator_matches_consumer` is `isConvertible` of the two signatures |
| Powers.Apply | powers.py:168-170 | the converter's function: succeeds exactly when the list has the input arity, and then selects the chosen positions |
| Powers.Candidates | powers.py:164 | exactly the input positions of the requested type not chosen yet |
| Powers.OccurrencesCount | powers.py:164 | the positions of a type number its multiplicity |
| Powers.ChosenCount | powers.py:163-166 | a valid selection chooses, for each type, as many positions as it occurs among the outputs |
| Powers.CandidatesStep | powers.py:163-165 | `possible_indices` is non-empty exactly when the type has not yet used up its occurrences among the inputs |
| Powers.CountsFitAreConvertible | powers.py:158-165 | counts that fit imply `isConvertible` |
| Powers.CreateConverter | powers.py:150-166 | succeeds exactly when every type occurs among the outputs no more often than among the inputs; fails with the first `ValueError` exactly when `isConvertible` is false; on success the indices are distinct, in range and typed as the outputs |
| Powers.ApplyTyped | powers.py:168-170 | applied to values typed by the inputs, the converter returns values typed by the outputs |
| Powers.SelectionForced | powers.py:156 | with distinct input types the selection is forced |
| Powers.DropLastExample | powers.py:156 | `(a, b, c, d)` to `(a, b, c)` drops the last element |
| Powers.RepeatedTypeExample | powers.py:155 | `(a, a, a)` to `(a, a)` chooses any two distinct positions |
| Powers.MissingTypeExample | powers.py:157 | `(a, b)` to `(a, b, c)` is not convertible |
| Powers.LibraryConsumersWellFormed | powers.py:109-142 | every consumer's format string names only consumed positions |
| Powers.RealizedLength | powers.py:185-194 | the result has one power per convertible pair |
| Powers.NoFormatErrorAppend | powers.py:187-193 | no pair of a concatenation raises exactly when no pair of either part raises |
| Powers.VisitedStep | powers.py:187-191 | the nested loops visit the pairs in cross-product order |
| Powers.FormatErrorReached | powers.py:191 | a converting pair whose format string raises makes the whole enumeration raise |
| Powers.RenderPair | powers.py:190-193 | no power exactly when the pair does not convert; raises exactly when it converts and the format string names a missing argument; otherwise the text is the consumer's string filled with the selected emissions |
| Powers.GenerateAllPowers | powers.py:185-194 | returns exactly when no converting pair's format string raises, and then holds one (applicator name, text) per converting pair, in nested-loop order |
| Powers.ElementsNoFormatError | powers.py:188-191 | well-formed consumers never raise, element by element |
| Powers.NoFormatErrorFromConsumers | powers.py:185-194 | well-formed consumers never raise over all applicators |
| Powers.LibraryHasNoFormatError | powers.py:109-142 | on the source's applicators and elements, `generateAllPowers` returns normally |

## Left out

- Rendering (`render`, `renderToFile`: networkx, Graphviz through `os.system`, file removal), logging, `print` and the `__main__` drivers. These are I/O and foreign libraries.
- The reflection behind the registry check (`dir()`, `eval`, `issubclass`). The check is modelled over the declared classes listed alphabetically, as `dir()` lists them.
- Random distributions. `random.choice` is an arbitrary choice, so every property holds for every choice.
- `GeneratePower` in `powers.py`: an unbounded random retry loop. Its one-pair body is `Powers.RenderPair`.
- `attemptCreatePowerGraph` is not defined in the source. It is a parameter of `UniquePowers.CreateUniquePowers`, indexed by attempt number.
- Search.BidirectionalSearch.Run: runs at most `fuel` rounds, because the source generator keeps no visited set and need not terminate. The laziness of the generator is not modelled.
- Search.FindValidNodeTypes: returns the yields of at most `fuel` rounds as a list, for the same reason.
- Search.BidirectionalSearch.ProcessForward: the soundness of the yields is proved only when the start types take no inputs, and only from a frontier that satisfies the search invariant. The default start types, the universals, take no inputs, the constructor's frontier satisfies the invariant, and `RoundsSound` carries it through every round of `Rounds`.
- Search.BidirectionalSearch.ProcessBackward: the same restriction as `ProcessForward`.
- The unused generator-expression `assert` in `Node.__init__`. It always passes.
- The warning logged when the argument count differs from the input count. Only the zipped type check, which can fail, is modelled.
- `Element`'s `isinstance` asserts and Python class identity. Types are enumeration values, so `is` and `==` coincide.
- Assembly.FromListOfNodeTypes: returns `None` where the source raises `IndexError`, and does not say what the pools held when the exception left.
- Assembly.PowerGraph.Description: the source joins the descriptions in the iteration order of a Python `set`. The model takes that order as a parameter that lists each node index once. It proves that the collected descriptions, as a multiset, do not depend on that order. The joined string itself does.
- UniquePowers.CreateUniquePowers: Python 2 orders class objects in `sorted` by an unspecified total order. The model takes an injective rank as a parameter, with declaration order as one instance.
- Powers.GenerateAllPowers: takes the applicator and element lists as parameters. The source's lists are `Powers.Applicators` and `Powers.Elements`. An `IndexError` from `prettyprint` leaves the function, as in the source, and becomes the `Err` result.
- The number of powers the source's own tables produce is not computed. `Powers.LibraryHasNoFormatError` only proves that the enumeration returns normally on them.
