/**
 * The compile-time list computations of src/Parallel/ParallelComponentHelpers.hpp.
 *
 * A type is a value here: a tag is a number, and an action, a parallel
 * component and the metavariables are records whose optional fields stand
 * for the type aliases the C++ struct may or may not declare. A
 * `static_assert` that rejects an instantiation becomes an `Err`.
 */
module Parallel {
  import opened Wrappers

  /** The phases of the scalar-wave executable. Its metavariables declare
      their own `Phase` enumeration; this model identifies that enumeration
      with `Parallel::Phase`. */
  datatype Phase =
    | Initialization
    | RegisterWithObserver
    | InitializeTimeStepperHistory
    | LoadBalancing
    | Evolve
    | Exit

  /** A tag type. */
  type TagId = nat

  /** The optional `const_global_cache_tags` and `mutable_global_cache_tags`
      aliases of a metavariables, component or action struct. */
  datatype CacheAliases = CacheAliases(constTags: Option<seq<TagId>>, mutableTags: Option<seq<TagId>>)

  /** Which part of the global cache a computation is about. */
  datatype CacheKind = Const | Mutable

  datatype Action = Action(
    name: string,
    cache: CacheAliases,
    inboxTags: Option<seq<TagId>>,
    simpleTagsFromOptions: Option<seq<TagId>>)

  /** `Parallel::PhaseActions`: a phase and the actions run in it. The
      two-argument form `PhaseActions<Phase, ActionsList>` and the
      three-argument form `PhaseActions<PhaseType, Phase, ActionsList>` are
      both this type. */
  datatype PhaseActions = PhaseActions(phase: Phase, actions: seq<Action>)

  datatype ChareType = Singleton | Array | Group | Nodegroup

  /** The index type of a component's proxy. */
  datatype IndexType = IntIndex | Named(name: string)

  datatype Component = Component(
    cache: CacheAliases,
    phaseDependentActionList: seq<PhaseActions>,
    chareType: ChareType,
    arrayIndex: Option<IndexType>)

  datatype Metavariables = Metavariables(cache: CacheAliases, componentList: seq<Component>)

  datatype HelperError = NoMatchingTag | AmbiguousTag | MissingArrayIndex

  predicate NoDuplicates<X(==)>(xs: seq<X>) {
    forall i, j :: 0 <= i < j < |xs| ==> xs[i] != xs[j]
  }

  /** `tmpl::remove_duplicates`: the first occurrence of each element, in order. */
  function RemoveDuplicates<X(==,!new)>(xs: seq<X>): (r: seq<X>)
    ensures forall x :: x in r <==> x in xs
    ensures NoDuplicates(r)
    ensures NoDuplicates(xs) ==> r == xs
  {
    if |xs| == 0 then []
    else
      var init, last := xs[..|xs| - 1], xs[|xs| - 1];
      assert xs == init + [last];
      var kept := RemoveDuplicates(init);
      if last in kept then kept else kept + [last]
  }

  /** `tmpl::join<tmpl::transform<Xs, F>>`, and `tmpl::flatten` of such a
      transform: the lists `f(x)` concatenated in order. */
  function JoinTransform<X, Y(==,!new)>(xs: seq<X>, f: X -> seq<Y>): (r: seq<Y>)
    ensures forall y :: y in r <==> exists i :: 0 <= i < |xs| && y in f(xs[i])
  {
    if |xs| == 0 then []
    else
      var rest := JoinTransform(xs[1..], f);
      assert forall i :: 1 <= i < |xs| ==> xs[i] == xs[1..][i - 1];
      f(xs[0]) + rest
  }

  lemma {:induction false} JoinTransformAppend<X, Y(!new)>(xs: seq<X>, ys: seq<X>, f: X -> seq<Y>)
    ensures JoinTransform(xs + ys, f) == JoinTransform(xs, f) + JoinTransform(ys, f)
  {
    if |xs| == 0 {
      assert xs + ys == ys;
    } else {
      assert (xs + ys)[1..] == xs[1..] + ys;
      JoinTransformAppend(xs[1..], ys, f);
    }
  }

  /** The list an optional alias stands for: a struct without the alias
      contributes the empty list. */
  function AliasOrEmpty(alias: Option<seq<TagId>>): seq<TagId> {
    alias.GetOr([])
  }

  /** `get_*_global_cache_tags_from_parallel_struct`. */
  function CacheTagsOf(aliases: CacheAliases, kind: CacheKind): seq<TagId> {
    match kind
    case Const => AliasOrEmpty(aliases.constTags)
    case Mutable => AliasOrEmpty(aliases.mutableTags)
  }

  /** `get_inbox_tags_from_action`. */
  function InboxTagsOf(a: Action): seq<TagId> {
    AliasOrEmpty(a.inboxTags)
  }

  /** `get_*_global_cache_tags_from_parallel_struct` on an action. */
  function ActionCacheTags(kind: CacheKind): Action -> seq<TagId> {
    (a: Action) => CacheTagsOf(a.cache, kind)
  }

  /** `get_inbox_tags`: the unique inbox tags of a list of actions. */
  function GetInboxTags(actions: seq<Action>): (r: seq<TagId>)
    ensures NoDuplicates(r)
    ensures forall t :: t in r <==>
      exists i :: 0 <= i < |actions| && actions[i].inboxTags.Some? && t in actions[i].inboxTags.value
  {
    RemoveDuplicates(JoinTransform(actions, InboxTagsOf))
  }

  /** An action that declares no inbox tags contributes nothing, wherever
      it stands in the list. */
  lemma ActionWithoutInboxTagsContributesNothing(before: seq<Action>, a: Action, after: seq<Action>)
    requires a.inboxTags.None?
    ensures GetInboxTags(before + [a] + after) == GetInboxTags(before + after)
  {
    var f := InboxTagsOf;
    JoinTransformAppend(before + [a], after, f);
    JoinTransformAppend(before, [a], f);
    JoinTransformAppend(before, after, f);
    assert JoinTransform([a], f) == f(a) + JoinTransform([], f) == [];
    assert JoinTransform(before + [a] + after, f) == JoinTransform(before + after, f);
  }

  /** `get_const_global_cache_tags_from_actions` and
      `get_mutable_global_cache_tags_from_actions`. */
  function GetGlobalCacheTagsFromActions(actions: seq<Action>, kind: CacheKind): (r: seq<TagId>)
    ensures NoDuplicates(r)
    ensures forall t :: t in r <==> exists i :: 0 <= i < |actions| && t in CacheTagsOf(actions[i].cache, kind)
  {
    RemoveDuplicates(JoinTransform(actions, ActionCacheTags(kind)))
  }

  /** An action without the alias contributes nothing to the cache tags. */
  lemma ActionWithoutCacheTagsContributesNothing(before: seq<Action>, a: Action, after: seq<Action>, kind: CacheKind)
    requires CacheTagsOf(a.cache, kind) == []
    ensures GetGlobalCacheTagsFromActions(before + [a] + after, kind)
         == GetGlobalCacheTagsFromActions(before + after, kind)
  {
    var f := ActionCacheTags(kind);
    JoinTransformAppend(before + [a], after, f);
    JoinTransformAppend(before, [a], f);
    JoinTransformAppend(before, after, f);
    assert JoinTransform([a], f) == f(a) + JoinTransform([], f) == [];
    assert JoinTransform(before + [a] + after, f) == JoinTransform(before + after, f);
  }

  /** Every action of a phase-dependent action list, phase by phase. */
  function ActionsOf(pdal: seq<PhaseActions>): (r: seq<Action>)
    ensures forall a :: a in r <==> exists i :: 0 <= i < |pdal| && a in pdal[i].actions
  {
    JoinTransform(pdal, (p: PhaseActions) => p.actions)
  }

  /** `get_*_global_cache_tags_from_pdal` (and `..._from_component` on the
      component's list): the tags of every action of every phase, with
      repetitions. */
  function CacheTagsFromPdal(pdal: seq<PhaseActions>, kind: CacheKind): (r: seq<TagId>)
    ensures forall t :: t in r <==> exists a :: a in ActionsOf(pdal) && t in CacheTagsOf(a.cache, kind)
  {
    var actions := ActionsOf(pdal);
    var r := JoinTransform(actions, (a: Action) => CacheTagsOf(a.cache, kind));
    assert forall t :: t in r ==> exists a :: a in actions && t in CacheTagsOf(a.cache, kind) by {
      forall t | t in r
        ensures exists a :: a in actions && t in CacheTagsOf(a.cache, kind)
      {
        var i :| 0 <= i < |actions| && t in CacheTagsOf(actions[i].cache, kind);
        assert actions[i] in actions;
      }
    }
    assert forall t :: (exists a :: a in actions && t in CacheTagsOf(a.cache, kind)) ==> t in r by {
      forall t | exists a :: a in actions && t in CacheTagsOf(a.cache, kind)
        ensures t in r
      {
        var a :| a in actions && t in CacheTagsOf(a.cache, kind);
        var i :| 0 <= i < |actions| && actions[i] == a;
      }
    }
    r
  }

  /**
   * `get_const_global_cache_tags` and `get_mutable_global_cache_tags`: the
   * unique tags declared by the metavariables, by each component, and by
   * each action of each component's phase-dependent action list.
   */
  function GetGlobalCacheTags(m: Metavariables, kind: CacheKind): (r: seq<TagId>)
    ensures NoDuplicates(r)
    ensures forall t :: t in r <==>
      || t in CacheTagsOf(m.cache, kind)
      || (exists i :: 0 <= i < |m.componentList| && t in CacheTagsOf(m.componentList[i].cache, kind))
      || (exists i :: 0 <= i < |m.componentList| &&
            t in CacheTagsFromPdal(m.componentList[i].phaseDependentActionList, kind))
  {
    RemoveDuplicates(
      CacheTagsOf(m.cache, kind)
      + JoinTransform(m.componentList, (c: Component) => CacheTagsOf(c.cache, kind))
      + JoinTransform(m.componentList, (c: Component) => CacheTagsFromPdal(c.phaseDependentActionList, kind)))
  }

  /** The transitive base classes of each tag that has any. */
  type TagHierarchy = map<TagId, set<TagId>>

  /** `std::is_base_of<Base, Derived>`: a tag is its own base. */
  predicate IsBaseOf(base: TagId, derived: TagId, bases: TagHierarchy) {
    base == derived || (derived in bases && base in bases[derived])
  }

  /** `tmpl::filter<Tags, std::is_base_of<tmpl::pin<Tag>, tmpl::_1>>`. */
  function FilterDerived(tags: seq<TagId>, tag: TagId, bases: TagHierarchy): (r: seq<TagId>)
    ensures forall t :: t in r <==> t in tags && IsBaseOf(tag, t, bases)
    ensures NoDuplicates(tags) ==> NoDuplicates(r)
  {
    if |tags| == 0 then []
    else
      var rest := FilterDerived(tags[1..], tag, bases);
      assert forall t :: t in tags <==> t == tags[0] || t in tags[1..];
      assert NoDuplicates(tags) ==> tags[0] !in tags[1..];
      if IsBaseOf(tag, tags[0], bases) then [tags[0]] + rest else rest
  }

  /** `is_in_const_global_cache` and `is_in_mutable_global_cache`. */
  predicate IsInCache(m: Metavariables, kind: CacheKind, tag: TagId, bases: TagHierarchy)
    ensures IsInCache(m, kind, tag, bases) <==>
      exists t :: t in GetGlobalCacheTags(m, kind) && IsBaseOf(tag, t, bases)
  {
    var found := FilterDerived(GetGlobalCacheTags(m, kind), tag, bases);
    assert |found| > 0 ==> found[0] in found;
    |found| > 0
  }

  /** `is_in_global_cache`: in the const part or in the mutable part. */
  predicate IsInGlobalCache(m: Metavariables, tag: TagId, bases: TagHierarchy)
    ensures IsInGlobalCache(m, tag, bases) <==>
      exists t :: IsBaseOf(tag, t, bases) &&
        (t in GetGlobalCacheTags(m, Const) || t in GetGlobalCacheTags(m, Mutable))
  {
    IsInCache(m, Const, tag, bases) || IsInCache(m, Mutable, tag, bases)
  }

  /** A tag that an action of some component declares for the const
      cache is retrievable from the global cache. */
  lemma DeclaredActionTagIsInCache(m: Metavariables, i: nat, p: nat, j: nat, tag: TagId, bases: TagHierarchy)
    requires i < |m.componentList|
    requires p < |m.componentList[i].phaseDependentActionList|
    requires j < |m.componentList[i].phaseDependentActionList[p].actions|
    requires tag in CacheTagsOf(m.componentList[i].phaseDependentActionList[p].actions[j].cache, Const)
    ensures IsInGlobalCache(m, tag, bases)
  {
    var pdal := m.componentList[i].phaseDependentActionList;
    var a := pdal[p].actions[j];
    assert a in pdal[p].actions;
    assert a in ActionsOf(pdal);
    assert tag in CacheTagsFromPdal(pdal, Const);
    assert tag in GetGlobalCacheTags(m, Const);
    assert IsBaseOf(tag, tag, bases);
  }

  /** `MutableCacheTag<Tag>`: the storage entry of a mutable cache tag. */
  datatype StorageTag = MutableCacheTag(tag: TagId)

  /** `get_mutable_global_cache_tag_storage`: one storage entry per mutable
      cache tag, in order. */
  function GetMutableGlobalCacheTagStorage(m: Metavariables): (r: seq<StorageTag>)
    ensures |r| == |GetGlobalCacheTags(m, Mutable)|
    ensures forall k :: 0 <= k < |r| ==> r[k].tag == GetGlobalCacheTags(m, Mutable)[k]
    ensures NoDuplicates(r)
  {
    var tags := GetGlobalCacheTags(m, Mutable);
    seq(|tags|, k requires 0 <= k < |tags| => MutableCacheTag(tags[k]))
  }

  /**
   * `matching_tag_helper`: the one tag of `possible` that derives from
   * `tag`. No match and several matches are both rejected.
   */
  function MatchingTag(tag: TagId, possible: seq<TagId>, bases: TagHierarchy): (r: Result<TagId, HelperError>)
    ensures r == Err(NoMatchingTag) <==> forall t :: t in possible ==> !IsBaseOf(tag, t, bases)
    ensures r.Ok? ==> r.value in possible && IsBaseOf(tag, r.value, bases) &&
                      forall t :: t in possible && IsBaseOf(tag, t, bases) ==> t == r.value
    ensures (exists t0, t1 :: t0 in possible && t1 in possible && t0 != t1 &&
               IsBaseOf(tag, t0, bases) && IsBaseOf(tag, t1, bases)) ==> r == Err(AmbiguousTag)
    ensures NoDuplicates(possible) && r == Err(AmbiguousTag) ==>
      exists t0, t1 :: t0 in possible && t1 in possible && t0 != t1 &&
        IsBaseOf(tag, t0, bases) && IsBaseOf(tag, t1, bases)
  {
    var found := FilterDerived(possible, tag, bases);
    if |found| == 0 then
      Err(NoMatchingTag)
    else if |found| != 1 then
      assert found[0] in found && found[1] in found;
      Err(AmbiguousTag)
    else
      assert found[0] in found;
      Ok(found[0])
  }

  /** `get_matching_mutable_tag`: since the mutable cache tags are unique,
      the lookup succeeds exactly when one of them derives from `tag`. */
  function GetMatchingMutableTag(tag: TagId, m: Metavariables, bases: TagHierarchy): (r: Result<TagId, HelperError>)
    ensures r.Ok? <==>
      exists t :: t in GetGlobalCacheTags(m, Mutable) && IsBaseOf(tag, t, bases) &&
                  forall t' :: t' in GetGlobalCacheTags(m, Mutable) && IsBaseOf(tag, t', bases) ==> t' == t
    ensures r.Ok? ==> IsInCache(m, Mutable, tag, bases)
  {
    MatchingTag(tag, GetGlobalCacheTags(m, Mutable), bases)
  }

  /** `detail::get_initialization_actions_list` of one entry. */
  function InitializationActions(p: PhaseActions): seq<Action> {
    if p.phase == Initialization then p.actions else []
  }

  /** `get_initialization_actions_list`: the actions of the Initialization
      entries of a phase-dependent action list. */
  function GetInitializationActionsList(pdal: seq<PhaseActions>): (r: seq<Action>)
    ensures forall a :: a in r <==>
      exists i :: 0 <= i < |pdal| && pdal[i].phase == Initialization && a in pdal[i].actions
  {
    JoinTransform(pdal, InitializationActions)
  }

  /** When the Initialization phase appears once, its action list is
      returned unchanged, in order. */
  lemma {:induction false} InitializationActionsOfSingleEntry(pdal: seq<PhaseActions>, k: nat)
    requires k < |pdal| && pdal[k].phase == Initialization
    requires forall i :: 0 <= i < |pdal| && i != k ==> pdal[i].phase != Initialization
    ensures GetInitializationActionsList(pdal) == pdal[k].actions
  {
    var f := InitializationActions;
    assert pdal == pdal[..k] + [pdal[k]] + pdal[k + 1..];
    JoinTransformAppend(pdal[..k] + [pdal[k]], pdal[k + 1..], f);
    JoinTransformAppend(pdal[..k], [pdal[k]], f);
    NoInitializationEntry(pdal[..k]);
    NoInitializationEntry(pdal[k + 1..]);
    assert GetInitializationActionsList(pdal) == JoinTransform(pdal, f);
    assert JoinTransform([pdal[k]], f) == pdal[k].actions;
  }

  /** Without an Initialization entry the list of initialization actions
      is empty. */
  lemma {:induction false} NoInitializationEntry(pdal: seq<PhaseActions>)
    requires forall i :: 0 <= i < |pdal| ==> pdal[i].phase != Initialization
    ensures GetInitializationActionsList(pdal) == []
  {
    if |pdal| > 0 {
      NoInitializationEntry(pdal[1..]);
    }
  }

  /** `get_simple_tags_from_options`: the unique `simple_tags_from_options`
      of a list of initialization actions. */
  function GetSimpleTagsFromOptions(actions: seq<Action>): (r: seq<TagId>)
    ensures NoDuplicates(r)
    ensures forall t :: t in r <==>
      exists i :: 0 <= i < |actions| && actions[i].simpleTagsFromOptions.Some? &&
        t in actions[i].simpleTagsFromOptions.value
  {
    RemoveDuplicates(JoinTransform(actions, (a: Action) => AliasOrEmpty(a.simpleTagsFromOptions)))
  }

  /** A simple tag's `option_tags` alias: a plain list, or, when the tag sets
      `pass_metavariables`, a template over the metavariables. */
  datatype OptionTagsAlias =
    | PlainOptionTags(tags: seq<TagId>)
    | TemplatedOptionTags(forMetavariables: Metavariables -> seq<TagId>)

  function OptionTagsOf(alias: OptionTagsAlias, m: Metavariables): seq<TagId> {
    match alias
    case PlainOptionTags(tags) => tags
    case TemplatedOptionTags(f) => f(m)
  }

  /** `get_option_tags`: the unique option tags needed to construct the
      given simple tags. */
  function GetOptionTags(simpleTags: seq<TagId>, aliasOf: TagId -> OptionTagsAlias, m: Metavariables): (r: seq<TagId>)
    ensures NoDuplicates(r)
    ensures forall t :: t in r <==> exists i :: 0 <= i < |simpleTags| && t in OptionTagsOf(aliasOf(simpleTags[i]), m)
  {
    RemoveDuplicates(JoinTransform(simpleTags, (s: TagId) => OptionTagsOf(aliasOf(s), m)))
  }

  /** `get_array_index`: `int` for singletons, groups and nodegroups, and
      the component's own `array_index` alias for an array, which must
      then exist. */
  function GetArrayIndex(c: Component): (r: Result<IndexType, HelperError>)
    ensures c.chareType != Array ==> r == Ok(IntIndex)
    ensures c.chareType == Array ==> (r.Ok? <==> c.arrayIndex.Some?)
    ensures c.chareType == Array && r.Ok? ==> r.value == c.arrayIndex.value
    ensures r.Err? ==> r.error == MissingArrayIndex
  {
    match c.chareType
    case Array =>
      (match c.arrayIndex
       case Some(index) => Ok(index)
       case None => Err(MissingArrayIndex))
    case _ => Ok(IntIndex)
  }
}
