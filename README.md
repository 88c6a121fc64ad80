# A Dafny model of core pieces of SpECTRE

This project models four parts of the SpECTRE numerical-relativity code and
proves properties of the model:

- **`Variables`** (`variables.dfy`, module `DataStructures`). This is the container that holds every
  independent tensor component of a list of tags, for a number of grid
  points, in one contiguous buffer. Component `k` occupies the `npts` entries
  that start at offset `k * npts`. A `Variables` either owns its buffer or is a
  non-owning view into a buffer owned elsewhere. It is modelled as a class
  over an `array`, with the fields `size`, `npts`, `owning`, a start offset
  into the array, and the offsets the tensors are pointed at. A view shares
  the array of its target, so aliasing is part of the model. Its operations
  are:
  - resizing (`initialize`);
  - re-pointing (`set_data_ref`);
  - copy and move construction and assignment;
  - `pup`;
  - subset views and copies;
  - in-place scaling by a vector;
  - `contains_allocations`.
- **The `funcl` function objects** (`funcl.dfy`, module `Funcl`). These are
  higher-order function objects over integer values:
  - the composites made by the binary-operator macros, and their in-place forms;
  - `Identity`, `GetArgument`, `AssertEqual`, `Square`, `UnaryPow`;
  - `ElementWise`, with broadcasting of single values;
  - `Merge`.

  A call that would not compile, or a debug assertion that would fire,
  becomes an `Err`.
- **The parallel-component helpers** (`parallel.dfy`, module `Parallel`).
  These are the compile-time list computations over tags, done here on
  sequences of tag numbers:
  - the duplicate-free unions of inbox and global-cache tags;
  - the cache membership tests;
  - the unique-match lookup of a mutable cache tag;
  - the initialization actions of a phase-dependent action list;
  - the option tags;
  - the array index of a component.
- **The scalar-wave evolution executable** (`evolve_scalar_wave.dfy`, module
  `EvolveScalarWave`). This covers the phase transition function
  `determine_next_phase` and `phase_name`. It also covers the selections that
  the compile-time switches `local_time_stepping` and `use_filtering` make.
  Those switches are parameters here, so both settings are covered.

`wrappers.dfy` holds the `Option` and `Result` types shared by the modules.

## Model

| member | source | states |
|---|---|---|
| Funcl.Apply | src/Utilities/Functional.hpp:52-53 | a call with fewer arguments than the function object's arity is rejected |
| Funcl.ApplyGeneric | src/Utilities/Functional.hpp:82-97 | the generic composite rejects a call with fewer arguments than the sum of its parts' arities |
| Funcl.Combine | src/Utilities/Functional.hpp:233-243 | the operator fails exactly on an integer division by zero, and then with `DivisionByZero` |
| Funcl.TruncDivRemainder | src/Utilities/Functional.hpp:233 | states the contract of `TruncDiv`, the C++ integer `/`: it rounds toward zero, so the remainder is smaller than the divisor and has the dividend's sign |
| Funcl.AcceptedCallCompiles | src/Utilities/Functional.hpp:82-226 | a call whose argument count the function object's call operator accepts, a check made before any value is known, is never rejected with `ArityMismatch`, whatever the argument values |
| Funcl.WellFormedAcceptsItsArity | src/Utilities/Functional.hpp:51-61 | a consistently instantiated function object accepts a call with exactly its arity |
| Funcl.ExactArityAccepted | src/Utilities/Functional.hpp:82-86 | a consistently instantiated function object called with exactly its arity always compiles, because a composite's arity is the sum of its parts' arities |
| Funcl.IdentityExactArityAccepted | src/Utilities/Functional.hpp:98-104 | the same for the `Identity`-first specialisation, of arity `1 + C1::arity` |
| Funcl.GenericExactArityAccepted | src/Utilities/Functional.hpp:84-97 | the same for the generic composite, of arity `C0::arity + C1::arity` |
| Funcl.GenericAcceptsWhenPartsDo | src/Utilities/Functional.hpp:88-94 | a generic composite rejects its arguments only if one of its parts rejects its block |
| Funcl.IdentityKeepsFailures | src/Utilities/Functional.hpp:98-104 | an `Identity`-first composite fails only with its second part's failure or a division by zero |
| Funcl.GenericKeepsFailures | src/Utilities/Functional.hpp:88-94 | a generic composite fails only with a failure of one of its parts or a division by zero |
| Funcl.IdentitySpecialisationAgrees | src/Utilities/Functional.hpp:98-110 | with exactly the composite's arity, the `Identity` specialisations give the same result as the generic form |
| Funcl.GenericReadsOnlyItsBlocks | src/Utilities/Functional.hpp:88-94 | `C0` sees the first `C0::arity` arguments and `C1` the next `C1::arity`: two argument lists that agree on these blocks give the same result |
| Funcl.GenericIgnoresSurplus | src/Utilities/Functional.hpp:88-94 | arguments after the two blocks do not change the generic composite's result |
| Funcl.GenericLink | src/Utilities/Functional.hpp:82-97 | every composite whose first part is not `Identity` takes the generic form |
| Funcl.SquareIsSelfProduct | src/Utilities/Functional.hpp:301-309 | `Square<C>` on some arguments is `Multiplies<C, C>` on those arguments given twice |
| Funcl.SquareOfGeneric | src/Utilities/Functional.hpp:301-309 | the generic product of `C` with itself, over a list made of the arguments twice, is `Square<C>` |
| Funcl.GetArgumentIgnoresOthers | src/Utilities/Functional.hpp:203-213 | `GetArgument<Arity, I, C>` is `C` applied to argument `I`, and replacing any other argument changes nothing |
| Funcl.AssertEqualReturnsCommonValue | src/Utilities/Functional.hpp:66-80 | `AssertEqual<C>` succeeds only when `C` has arity one and agrees on both arguments, returning that value; it fails with `NotEqual` when `C` disagrees |
| Funcl.ApplyAssign | src/Utilities/Functional.hpp:130-143 | the in-place operator sets its first argument to what the non-assigning operator computes and returns that argument; on failure the argument is unchanged |
| Funcl.ElementWise | src/Utilities/Functional.hpp:311-329 | a call of `C` with one argument per operand that does not compile is rejected with `ArityMismatch`, even for an empty first operand, and no other call is; otherwise the result has the first operand's size and element `i` is `C` of element `i` of every operand, single values broadcast; under the corrected size check (see "Findings"), a container of another size is an error, and a failing call is exactly when some element fails |
| Funcl.ElementWiseCheckAdmitsShortVector | src/Utilities/Functional.hpp:319-325 | the size check as written accepts a one-element container against a two-element first operand, whose element 1 the loop then reads |
| Funcl.SizesAgreeIsSafe | src/Utilities/Functional.hpp:316-326 | the corrected size check keeps every read in bounds and implies the written one for every first-operand size |
| Funcl.Merge | src/Utilities/Functional.hpp:331-342 | the result holds every key of `C0(t0)` and `C1(t1)`; a key of `C0(t0)` keeps its value there, and any other key has its value from `C1(t1)` |
| Funcl.MergeDisjointCommutes | src/Utilities/Functional.hpp:331-342 | merging two containers with disjoint keys does not depend on their order |
| Parallel.RemoveDuplicates | src/Parallel/ParallelComponentHelpers.hpp:36-38 | the result has the same elements, none twice, and a list without duplicates is returned unchanged |
| Parallel.JoinTransform | src/Parallel/ParallelComponentHelpers.hpp:36-38 | an element is in the joined transform exactly when it is in the image of some element |
| Parallel.JoinTransformAppend | src/Parallel/ParallelComponentHelpers.hpp:36-38 | joining the transform of a concatenation is concatenating the joins |
| Parallel.GetInboxTags | src/Parallel/ParallelComponentHelpers.hpp:20-38 | duplicate-free, and a tag is in it exactly when some action's `inbox_tags` contains it |
| Parallel.ActionWithoutInboxTagsContributesNothing | src/Parallel/ParallelComponentHelpers.hpp:20-23 | inserting an action without `inbox_tags` anywhere in the list does not change the result |
| Parallel.GetGlobalCacheTagsFromActions | src/Parallel/ParallelComponentHelpers.hpp:103-118 | duplicate-free, and a tag is in it exactly when some action declares it in the const (or mutable) alias |
| Parallel.ActionWithoutCacheTagsContributesNothing | src/Parallel/ParallelComponentHelpers.hpp:42-45 | inserting an action without the alias anywhere in the list does not change the result |
| Parallel.ActionsOf | src/Parallel/ParallelComponentHelpers.hpp:54-61 | an action is listed exactly when some phase of the list has it |
| Parallel.CacheTagsFromPdal | src/Parallel/ParallelComponentHelpers.hpp:54-67 | a tag is in it exactly when some action of some phase declares it |
| Parallel.GetGlobalCacheTags | src/Parallel/ParallelComponentHelpers.hpp:125-153 | duplicate-free, and a tag is in it exactly when the metavariables, a component, or an action of a component's phase-dependent action list declares it |
| Parallel.FilterDerived | src/Parallel/ParallelComponentHelpers.hpp:160-163 | keeps exactly the tags derived from the given tag, and keeps a list duplicate-free |
| Parallel.IsInCache | src/Parallel/ParallelComponentHelpers.hpp:160-174 | holds exactly when some tag of that part of the cache derives from the tag |
| Parallel.IsInGlobalCache | src/Parallel/ParallelComponentHelpers.hpp:181-184 | holds exactly when some tag derived from the tag is in the const part or in the mutable part |
| Parallel.DeclaredActionTagIsInCache | src/Parallel/ParallelComponentHelpers.hpp:125-135 | a tag that any action of any component declares for the const cache is in the global cache |
| Parallel.GetMutableGlobalCacheTagStorage | src/Parallel/ParallelComponentHelpers.hpp:191-207 | one `MutableCacheTag` per mutable cache tag, in the same order, none twice |
| Parallel.MatchingTag | src/Parallel/ParallelComponentHelpers.hpp:223-248 | no derived tag is rejected as `NoMatchingTag`, two or more as `AmbiguousTag`, and otherwise the unique derived tag is returned |
| Parallel.GetMatchingMutableTag | src/Parallel/ParallelComponentHelpers.hpp:250-252 | succeeds exactly when one mutable cache tag derives from the tag, and then the tag is in the mutable cache |
| Parallel.GetInitializationActionsList | src/Parallel/ParallelComponentHelpers.hpp:255-274 | an action is listed exactly when it belongs to an Initialization entry |
| Parallel.InitializationActionsOfSingleEntry | src/Parallel/ParallelComponentHelpers.hpp:261-274 | with one Initialization entry, its action list is returned unchanged and in order |
| Parallel.NoInitializationEntry | src/Parallel/ParallelComponentHelpers.hpp:268-274 | without an Initialization entry, the list is empty |
| Parallel.GetSimpleTagsFromOptions | src/Parallel/ParallelComponentHelpers.hpp:276-296 | duplicate-free, and a tag is in it exactly when some action's `simple_tags_from_options` contains it |
| Parallel.GetOptionTags | src/Parallel/ParallelComponentHelpers.hpp:298-323 | duplicate-free, and a tag is in it exactly when the option tags of some simple tag contain it |
| Parallel.GetArrayIndex | src/Parallel/ParallelComponentHelpers.hpp:333-358 | `int` for singletons, groups and nodegroups; for an array, the component's `array_index`, and an error exactly when it has none |
| EvolveScalarWave.DetermineNextPhase | src/Evolution/Executables/ScalarWave/EvolveScalarWave.hpp:272-303 | an arbitrated phase wins; otherwise each phase of the default order leads to the next one, Exit is an error, and a phase outside the order is an error |
| EvolveScalarWave.DefaultRunEndsAtExit | src/Evolution/Executables/ScalarWave/EvolveScalarWave.hpp:286-299 | without phase changes, a run from Initialization visits exactly the default order and stops at Exit |
| EvolveScalarWave.LoadBalancingOnlyByArbitration | src/Evolution/Executables/ScalarWave/EvolveScalarWave.hpp:278-303 | no phase leads to LoadBalancing by default, and arbitration can always enter it |
| EvolveScalarWave.PhaseName | src/Evolution/Executables/ScalarWave/EvolveScalarWave.hpp:192-200 | "LoadBalancing" for LoadBalancing, and an error for every other phase |
| EvolveScalarWave.NamedPhaseIsOutsideDefaultOrder | src/Evolution/Executables/ScalarWave/EvolveScalarWave.hpp:192-203 | a phase has a name exactly when it is outside the default order |
| EvolveScalarWave.SourceConfig | src/Evolution/Executables/ScalarWave/EvolveScalarWave.hpp:106-120 | an instantiation exists exactly when the initial data is analytic data or an analytic solution but not both; it has local time stepping on |
| EvolveScalarWave.TimeStepperMatchesStepping | src/Evolution/Executables/ScalarWave/EvolveScalarWave.hpp:120-181 | states the contract of `TimeStepperOf` (lines 121-122) against the other choices: step choosers exist only with a local-time-stepping stepper; `RecordTimeStepperData` and `UpdateU` are step actions exactly with a global stepper; every instantiation the source accepts has a local-time-stepping stepper |
| EvolveScalarWave.StepChoosers | src/Evolution/Executables/ScalarWave/EvolveScalarWave.hpp:123-135 | empty without local time stepping, and never `StepToTimes` |
| EvolveScalarWave.SlabChoosers | src/Evolution/Executables/ScalarWave/EvolveScalarWave.hpp:136-140 | always has `StepToTimes`, and has `PreventRapidIncrease` exactly without local time stepping |
| EvolveScalarWave.ChoosersCoverEveryKind | src/Evolution/Executables/ScalarWave/EvolveScalarWave.hpp:123-140 | every chooser serves steps or slabs, and the common choosers always serve slabs |
| EvolveScalarWave.StepActions | src/Evolution/Executables/ScalarWave/EvolveScalarWave.hpp:168-181 | states the contract of `UseFiltering` (line 168) with the list it selects: starts with the time derivative and the boundary corrections; has RecordTimeStepperData and UpdateU exactly without local time stepping, and the filter exactly in two dimensions |
| EvolveScalarWave.InitializationActionsOf | src/Evolution/Executables/ScalarWave/EvolveScalarWave.hpp:219-233 | ten actions, no two with the same name; the first sets up the DataBox and the last removes the options and terminates the phase |
| EvolveScalarWave.ElementArrayInitializationActions | src/Evolution/Executables/ScalarWave/EvolveScalarWave.hpp:235-255 | the initialization actions that the parallel helpers extract from the element array are the executable's `initialization_actions` |
| EvolveScalarWave.ElementArrayPhasesAreDefaultPhases | src/Evolution/Executables/ScalarWave/EvolveScalarWave.hpp:235-255 | states the contract of `DgElementArrayPdal`: every phase the element array has actions for is in the default order, each once |
| EvolveScalarWave.EvolutionCacheAndIndex | src/Evolution/Executables/ScalarWave/EvolveScalarWave.hpp:211-215 | states the contract of `EvolutionMetavariables`: the time stepper is retrievable from the global cache, and the element array is indexed by element |
| DataStructures.Layout.Slice | src/DataStructures/Variables.hpp:320-350 | the consecutive tags as a list of their own: well formed, the same tags, and offsets shifted by the offset of the first tag |
| DataStructures.SubsetBounds | src/DataStructures/Variables.hpp:338-348 | the subset's block starts `npts` times the preceding components in, ends within the buffer, and spans `npts` times the subset's components |
| DataStructures.InitializeAsWritten | src/DataStructures/Variables.hpp:626-657 | as written: fails exactly on a non-owning object whose point count differs; otherwise `n` points and the same ownership, and a resize to zero points sets the size to zero but keeps the old view length |
| DataStructures.InitializeHeader | src/DataStructures/Variables.hpp:626-657 | corrected: the same failure condition, `n` points and the same ownership, and every resize leaves a consistent header |
| DataStructures.CopyAssignAsWritten | src/DataStructures/Variables.hpp:676-687 | as written: resizing a non-owning target fails; on success the target has `rhs`'s point count and view length and keeps its ownership |
| DataStructures.CopyAssignHeader | src/DataStructures/Variables.hpp:676-687 | the same promises for the copy assignment built on the corrected `initialize` |
| DataStructures.InitializeHeaderContract | src/DataStructures/Variables.hpp:626-657 | `initialize(n)` fails exactly on a non-owning object with a different point count; otherwise it leaves `n` points, size `n * ncomp`, the ownership unchanged, and a repeat call changes nothing |
| DataStructures.InitializeToZeroLeavesStaleView | src/DataStructures/Variables.hpp:626-657 | as written, resizing to zero points leaves a view longer than the size, and a later copy assignment of an empty object then fails |
| DataStructures.CopyAssignHeaderFailsOnlyOnResizeOfView | src/DataStructures/Variables.hpp:676-687 | copy assignment fails exactly when a non-owning target would have to be resized, and otherwise takes the source's point count |
| DataStructures.Variables.Empty | src/DataStructures/Variables.hpp:600-612 | owning, with no points and no entries |
| DataStructures.Variables.AddReferenceVariableData | src/DataStructures/Variables.hpp:917-946 | component `k` is referenced at offset `k * npts` of the view; nothing else changes, and an empty object is left alone |
| DataStructures.Variables.Initialize | src/DataStructures/Variables.hpp:626-657 | the new bookkeeping is that of `initialize(n)`; the same point count changes nothing; otherwise a fresh buffer of `n * ncomp` entries |
| DataStructures.Variables.WithPoints | src/DataStructures/Variables.hpp:614-618 | owning, with `n` points and `n * ncomp` entries |
| DataStructures.Variables.InitializeWith | src/DataStructures/Variables.hpp:659-664 | as `initialize(n)`, and then every entry of the view equals the value, with nothing outside the view changed |
| DataStructures.Variables.Fill | src/DataStructures/Variables.hpp:663 | every entry of the view equals the value, and nothing outside it changes |
| DataStructures.Variables.Filled | src/DataStructures/Variables.hpp:619-623 | owning, with `n` points and every entry equal to the value |
| DataStructures.Variables.SetDataRef | src/DataStructures/Variables.hpp:211-232 | non-owning; `nullptr` gives an empty view; otherwise the view of the given range, with `size / ncomp` points |
| DataStructures.Variables.SetDataRefTo | src/DataStructures/Variables.hpp:207-209 | a non-owning view of exactly `rhs`'s entries and point count |
| DataStructures.Variables.View | src/DataStructures/Variables.hpp:842-846 | a non-owning view, as `set_data_ref` makes it |
| DataStructures.Variables.LeaveEmpty | src/DataStructures/Variables.hpp:704-709 | the moved-from state: owning, no points, no entries |
| DataStructures.Variables.CopyAssign | src/DataStructures/Variables.hpp:676-687 | self-assignment changes nothing; otherwise the result of the bookkeeping decides success, and on success the object has `rhs`'s points, size and entries and keeps its ownership |
| DataStructures.Variables.CopyEntries | src/DataStructures/Variables.hpp:683-685 | the view holds `rhs`'s entries, and nothing outside it changes |
| DataStructures.Variables.Copy | src/DataStructures/Variables.hpp:667-674 | an owning object with its own buffer, holding `rhs`'s points and entries |
| DataStructures.Variables.Move | src/DataStructures/Variables.hpp:689-712 | takes `rhs`'s buffer, size, points and ownership; `rhs` is left owning and empty |
| DataStructures.Variables.MoveAssign | src/DataStructures/Variables.hpp:714-741 | as the move constructor; moving an object into itself changes nothing |
| DataStructures.Variables.Pack | src/DataStructures/Variables.hpp:848-861 | the point count followed by exactly the entries |
| DataStructures.Variables.Unpack | src/DataStructures/Variables.hpp:848-861 | the object has the packed point count and exactly the packed entries |
| DataStructures.PupRoundTrip | src/DataStructures/Variables.hpp:848-861 | packing one owning object and unpacking into another reproduces the point count, the size and the entries |
| DataStructures.Variables.ReferenceSubset | src/DataStructures/Variables.hpp:320-350 | a non-owning view into the same buffer, starting `npts` times the preceding components in and spanning `npts` times the subset's components; its component `c` is this object's component `first + c` |
| DataStructures.Variables.SubsetView | src/DataStructures/Variables.hpp:338-348 | such a view holds exactly that slice of the entries, component by component |
| DataStructures.Variables.ViewContents | src/DataStructures/Variables.hpp:345-348 | a view into the same buffer holds the entries between its two ends |
| DataStructures.Variables.ViewEntries | src/DataStructures/Variables.hpp:345-348 | a view starting at component `first` sees component `first + c` as its component `c` |
| DataStructures.Variables.ReferenceWithDifferentPrefixes | src/DataStructures/Variables.hpp:358-374 | a non-owning view of the whole buffer whose tensors, tag by tag, are this object's |
| DataStructures.Variables.AssignSubset | src/DataStructures/Variables.hpp:277-288 | the tensor of every shared tag is `src`'s, every other tensor keeps its entries, and nothing outside the view changes |
| DataStructures.Variables.AssignTag | src/DataStructures/Variables.hpp:279-284 | one tag's tensor is assigned from `src` if `src` has the tag; the other tensors keep their entries |
| DataStructures.Variables.CopyTag | src/DataStructures/Variables.hpp:281 | the tensor of the tag equals `src`'s tensor of that tag, and nothing else changes |
| DataStructures.Variables.OtherTagsKept | src/DataStructures/Variables.hpp:279-284 | a write confined to one tag's entries leaves every other tag's tensor as it was |
| DataStructures.Variables.ExtractSubset | src/DataStructures/Variables.hpp:304-312 | a new owning object with this object's point count whose tensors are copies of this object's tensors of the same tags |
| DataStructures.Variables.TagBounds | src/DataStructures/Variables.hpp:936-945 | a tag's tensor lies inside the view and spans `npts` times its number of components |
| DataStructures.Variables.TagsOrdered | src/DataStructures/Variables.hpp:936-945 | the tensor of an earlier tag ends before that of a later tag starts |
| DataStructures.Variables.IndexOrdered | src/DataStructures/Variables.hpp:957-964 | every entry of a component comes before every entry of a later component |
| DataStructures.Variables.ScaleBy | src/DataStructures/Variables.hpp:948-1003 | entry `s` of every component becomes its old value combined with `rhs[s]`, and nothing outside the view changes |
| DataStructures.CombineRange | src/DataStructures/Variables.hpp:960-963 | each entry of the range is combined with the matching element of `rhs`, and nothing else changes |
| DataStructures.Variables.Scaled | src/DataStructures/Variables.hpp:968-1012 | a new owning object whose entries are this object's combined with `rhs`, grid point by grid point |
| DataStructures.Variables.EntriesOfEqualContents | src/DataStructures/Variables.hpp:969-973 | two objects of the same shape with equal entries agree on every component at every grid point |
| DataStructures.Variables.ContainsAllocations | src/DataStructures/Variables.hpp:1234-1237 | more than one grid point; an owning object then has a heap buffer, and it has more entries than components |

## Left out

- Floating point. The entries of a `Variables` have an arbitrary type. The function objects work on unbounded integers. The transcendental function objects (`Sin`, `Exp`, `Atan2`, `Hypot`, `Pow`, …) and the `Pi` and `E` literals are calls into `<cmath>` and are not modelled.
- `And` and `Or` return the integers 1 and 0 for true and false.
- Compile-time errors and debug `ASSERT`s become `Err` values. A missing type alias becomes `None`. Debug `ASSERT`s that a caller must respect become `requires` clauses:
  - the size check of `set_data_ref`;
  - the size check of `*=` and `/=`;
  - the ownership check of `pup`;
  - the size check of `DataVector` when a tensor of a non-owning object is assigned. `assign_subset` relies on it, so `AssignSubset`, `AssignTag` and `CopyTag` require `src` to have the same point count when the two objects share a tag. `DataVector` is not part of this model.
- Funcl.ApplyAssign: models the `Identity`-first in-place specialisations only. The generic in-place form assigns through whatever reference `C0` returns, and references into the argument list are not modelled.
- Funcl.AssertEqual (via `Apply`): the returned value is modelled. That the C++ returns a reference to a temporary is not.
- Funcl.ElementWise: operands are integer sequences or single integers. Other container types are not modelled.
- Funcl.ElementWise: uses the corrected size check from "Findings", which accepts only single values and containers of the first operand's size. The written `ASSERT` also accepts a one-element container; with an empty first operand the source then returns an empty result where the model returns `Err(SizeMismatch)`. The written check is `Funcl.SizesAgreeAsWritten`.
- Funcl.UnaryPow: the exponent is a natural number. The source's `template <int N>` also admits negative exponents, which give floating-point results.
- `tmpl::remove_duplicates` is defined in Utilities/TMPL.hpp, which is not part of this model. It is taken to keep the first occurrence of each element.
- The scalar-wave executable declares its own `Phase` enumeration and uses the three-argument `PhaseActions<Phase, Phase::Initialization, ...>`. The helper's specialisation is written for the two-argument `PhaseActions<Parallel::Phase::Initialization, ...>`. The model identifies the executable's `Phase` with `Parallel::Phase` and the three-argument form with the two-argument form, and `EvolveScalarWave.ElementArrayInitializationActions` relies on that identification.
- Parallel: tags are numbers, and `std::is_base_of` is a given map from each tag to its bases. The option tags of a simple tag are a given function.
- Not modelled in ParallelComponentHelpers.hpp: `MutexTag`, `type_for_get_helper`, the proxy type aliases and `charm_types_with_parameters`. They are Charm++ plumbing.
- EvolveScalarWave.DetermineNextPhase: phase-change arbitration reads the global cache, so its outcome is a parameter. Not modelled:
  - Charm++ registration;
  - events and triggers;
  - the observer components' action lists.
  The self-start procedure stands for one action.
- DataStructures.Variables.ReferenceWithDifferentPrefixes: receives the prefixed layout as an argument. Stripping the prefixes from tag types is not modelled.
- DataStructures.Variables.ScaleBy: the entry operation is a parameter, which stands for the entry type's `*` or `/`. `rhs` is a value, so it cannot alias the object's own buffer. In the source `rhs` may be a view of one of the object's own components, for example `vars *= get(get<Tag>(vars))`. The loop then scales that component in place, and later components are combined with the already-scaled values. The model does not capture this aliased case.
- DataStructures.Variables.AssignSubset: requires `src` to use a different buffer from the target. Assigning a view's tensors from an object that shares its buffer is not modelled.
- DataStructures.PupRoundTrip: requires distinct buffers. The `PUP::er` byte format is abstracted to the point count followed by the entries.
- Not modelled in `Variables`:
  - freeing a buffer, and the dangling views that can result;
  - the static one-point buffer, which appears only as the `dynamic` flag being false. Moving an owning one-point object copies its static buffer into the new object, so views taken of the source do not see the new object's storage. The model's `Move` hands over the same array, so there the two alias;
  - filling with signalling NaNs in debug builds;
  - blaze expression arithmetic;
  - spin-weighted tensors;
  - `db::Subitems`;
  - `assign_subset` from a `TaggedTuple`.
- `Variables<tmpl::list<>>`, with no tags, is not modelled: a layout has at least one component. For such an object `reference_subset` returns an empty object, and `contains_allocations` has its own overload. `ReferenceSubset` accordingly requires a non-empty subset.
- The tensors' references are the offsets at which each independent component starts.
- DataStructures.Variables.Initialize: on a resize to zero points, the buffer becomes empty. This is the corrected behaviour under "Findings"; `DataStructures.InitializeAsWritten` keeps the written one.

## Findings

| source | as written | input that shows it | evidently intended | confidence | as-written member | corrected member |
|---|---|---|---|---|---|---|
| src/DataStructures/Variables.hpp:626-657 | Resizing an owning object with points to zero points sets the size to zero. The view `variable_data_` keeps its old length and buffer, because it is only reset when the new size is positive. | An owning object with 3 points of 2 components gets `initialize(0)`, then an empty `Variables` is copy-assigned to it. The view of length 6 meets one of length 0, and the assignment fails. Copy-assigning the empty object directly fails the same way. | The view is emptied with the size, leaving the same state that `Variables(0)` constructs. | not executed; medium | DataStructures.InitializeAsWritten, DataStructures.InitializeToZeroLeavesStaleView | DataStructures.InitializeHeader, DataStructures.InitializeHeaderContract, DataStructures.Variables.Initialize |
| src/Utilities/Functional.hpp:319-325 | The size check accepts any operand of size one, including a one-element container. | The first operand has 2 elements and the second is a `std::vector` with 1 element. The check passes and the loop reads element 1 of the short vector. | Only single values are broadcast, and every container has the first operand's size. | not executed; medium | Funcl.ElementWiseCheckAdmitsShortVector | Funcl.SizesAgreeIsSafe |
