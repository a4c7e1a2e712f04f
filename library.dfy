/**
 * The node-type library of the ability-graph generator: every `Node` subclass
 * becomes a `NodeType` value (its `INTYPES`, `OUTTYPES` and `FORMATSTRINGS`),
 * the namedtuple and class tags that serve as value types become `Ty`, and the
 * lists `universals`, `input_nodetypes`, `converter_nodetypes`, `game_effects`
 * and `nodetypes` become constants.  Classes that the source keeps inside
 * string literals (disabled node types) are not declared and do not appear.
 */
module Library {
  import opened Wrappers
  import opened Templates

  /** The value types that flow along graph edges (`float` is Python's builtin). */
  datatype Ty =
    | Float | InputKey | Position | SimplePath | Direction | EntityId
    | EnemyEntityId | Damage | GameEffect | Area | Bool

  /** The declared `Node` subclasses, in the order the source declares them. */
  datatype NodeKind =
    | ConstantFloat | OwningEntity | InKey
    | InputClick | InputPerpendicularLine | InputClickDragReleaseDirection
    | InputClickCharge | InputPlaceMines | InputUnitTargetEnemy | InputToggle
    | PositionToArea | TimeBoolToRandomDirection | PositionFromEntity
    | EntitiesInArea | DirectionToProjectile | CloudFollowingPath | PathToArea
    | AddDamageOnEntity | ConditionOnEntity | TeleportPlayer | Wall | TerminateDamage

  /** A node type: argument types in positional order, output types, one template per output. */
  datatype NodeType = NodeType(kind: NodeKind, intypes: seq<Ty>, outtypes: seq<Ty>, templates: seq<Template>)

  function Descriptor(k: NodeKind): NodeType
  {
    match k
    case ConstantFloat => NodeType(k, [], [Float], [[Lit("$CONSTANT")]])
    case OwningEntity => NodeType(k, [], [EntityId], [[Lit("the user's character")]])
    case InKey => NodeType(k, [], [InputKey], [[]])
    case InputClick => NodeType(k, [InputKey], [Position], [[Lit("where the user clicked")]])
    case InputPerpendicularLine =>
      NodeType(k, [InputKey], [SimplePath], [[Lit("a line perpendicular to the player")]])
    case InputClickDragReleaseDirection =>
      NodeType(k, [InputKey], [Position, Direction],
               [[Lit("where the user clicked")], [Lit("where the mouse moved before releasing")]])
    case InputClickCharge =>
      NodeType(k, [InputKey], [Position, Float],
               [[Lit("where the user clicked and held")],
                [Lit("proportional to how long the user held the mouse for")]])
    case InputPlaceMines =>
      NodeType(k, [InputKey], [Position, Float],
               [[Lit("where the mines were placed")],
                [Lit("proportional to how long the mines charged before detonation")]])
    case InputUnitTargetEnemy => NodeType(k, [InputKey], [EnemyEntityId], [[Lit("the clicked enemy")]])
    case InputToggle => NodeType(k, [InputKey], [Bool], [[Lit("a toggle is held")]])
    case PositionToArea =>
      NodeType(k, [Position, Float], [Area],
               [[Lit("a circle centered on "), Slot(0), Lit(" with radius "), Slot(1)]])
    case TimeBoolToRandomDirection =>
      NodeType(k, [Bool], [Direction], [[Lit("random directions when "), Slot(0)]])
    case PositionFromEntity => NodeType(k, [EntityId], [Position], [[Lit("the Position of "), Slot(0)]])
    case EntitiesInArea => NodeType(k, [Area], [EnemyEntityId], [[Lit("entities in "), Slot(0)]])
    case DirectionToProjectile =>
      NodeType(k, [Direction], [EnemyEntityId], [[Lit("enemies hit by projectiles emitted towards "), Slot(0)]])
    case CloudFollowingPath => NodeType(k, [SimplePath], [Area], [[Lit("a cloud that moves along "), Slot(0)]])
    case PathToArea => NodeType(k, [SimplePath], [Area], [[Lit("a static cloud covering "), Slot(0)]])
    case AddDamageOnEntity =>
      NodeType(k, [EnemyEntityId, Float], [Damage],
               [[Lit("Deal damage scaling with "), Slot(1), Lit(" to "), Slot(0)]])
    case ConditionOnEntity =>
      NodeType(k, [EnemyEntityId, Float], [GameEffect],
               [[Lit("Inflict a condition on "), Slot(0), Lit(" with intensity "), Slot(1)]])
    case TeleportPlayer =>
      NodeType(k, [EntityId, Position], [GameEffect], [[Lit("Teleport "), Slot(0), Lit(" to "), Slot(1)]])
    case Wall => NodeType(k, [SimplePath], [GameEffect], [[Lit("A wall following "), Slot(0)]])
    case TerminateDamage => NodeType(k, [Damage], [GameEffect], [[Slot(0)]])
  }

  /** Things one always has access to: no inputs. */
  const UniversalKinds: seq<NodeKind> := [ConstantFloat, OwningEntity, InKey]

  const InputKinds: seq<NodeKind> :=
    [InputClick, InputPerpendicularLine, InputClickDragReleaseDirection, InputClickCharge,
     InputPlaceMines, InputToggle, InputUnitTargetEnemy]

  const ConverterKinds: seq<NodeKind> :=
    [PositionToArea, TimeBoolToRandomDirection, PositionFromEntity, EntitiesInArea,
     DirectionToProjectile, CloudFollowingPath, PathToArea]

  const GameEffectKinds: seq<NodeKind> :=
    [AddDamageOnEntity, ConditionOnEntity, TeleportPlayer, Wall, TerminateDamage]

  /** `nodetypes = input_nodetypes + converter_nodetypes + game_effects`. */
  const NodeTypeKinds: seq<NodeKind> := InputKinds + ConverterKinds + GameEffectKinds

  function Descriptors(ks: seq<NodeKind>): (nts: seq<NodeType>)
    ensures |nts| == |ks|
    ensures forall i :: 0 <= i < |ks| ==> nts[i] == Descriptor(ks[i])
  {
    seq(|ks|, i requires 0 <= i < |ks| => Descriptor(ks[i]))
  }

  const Universals: seq<NodeType> := Descriptors(UniversalKinds)

  /** The node types the search may add (everything but the universals). */
  const NodeTypes: seq<NodeType> := Descriptors(NodeTypeKinds)

  /** Every `Node` subclass bound at module level, as `dir()` lists them: alphabetically. */
  const Declared: seq<NodeKind> :=
    [AddDamageOnEntity, CloudFollowingPath, ConditionOnEntity, ConstantFloat, DirectionToProjectile,
     EntitiesInArea, InKey, InputClick, InputClickCharge, InputClickDragReleaseDirection,
     InputPerpendicularLine, InputPlaceMines, InputToggle, InputUnitTargetEnemy, OwningEntity,
     PathToArea, PositionFromEntity, PositionToArea, TeleportPlayer, TerminateDamage,
     TimeBoolToRandomDirection, Wall]

  predicate Listed(k: NodeKind, nts: seq<NodeType>)
  {
    exists i :: 0 <= i < |nts| && nts[i].kind == k
  }

  /**
   * The module-level sanity loop: the first declared class (in `dir()` order)
   * that is in neither `nodetypes` nor `universals` raises `ValueError`.
   */
  function RegistryCheck(declared: seq<NodeKind>, nodetypes: seq<NodeType>, universals: seq<NodeType>)
    : (r: Result<(), NodeKind>)
    ensures r.Ok? <==> forall i :: 0 <= i < |declared| ==> Listed(declared[i], nodetypes) || Listed(declared[i], universals)
    ensures r.Err? ==> r.error in declared && !Listed(r.error, nodetypes) && !Listed(r.error, universals)
  {
    if declared == [] then Ok(())
    else if !Listed(declared[0], nodetypes) && !Listed(declared[0], universals) then Err(declared[0])
    else
      var rest := RegistryCheck(declared[1..], nodetypes, universals);
      assert forall i :: 1 <= i < |declared| ==> declared[i] == declared[1..][i - 1];
      rest
  }

  /** A kind in a list of kinds is listed among its descriptors. */
  lemma ListedIfIn(k: NodeKind, ks: seq<NodeKind>)
    requires k in ks && Descriptor(k).kind == k
    ensures Listed(k, Descriptors(ks))
  {
    var j :| 0 <= j < |ks| && ks[j] == k;
    assert Descriptors(ks)[j].kind == k;
  }

  lemma DescriptorKind(k: NodeKind)
    ensures Descriptor(k).kind == k
  {
  }

  /** Every node class appears in `universals` or in `nodetypes`. */
  lemma EveryKindListed(k: NodeKind)
    ensures Listed(k, NodeTypes) || Listed(k, Universals)
  {
    DescriptorKind(k);
    if k in UniversalKinds {
      ListedIfIn(k, UniversalKinds);
    } else {
      assert k in NodeTypeKinds;
      ListedIfIn(k, NodeTypeKinds);
    }
  }

  /** Every declared node class is registered, so loading the library does not raise. */
  lemma LibraryIsRegistered()
    ensures RegistryCheck(Declared, NodeTypes, Universals).Ok?
  {
    var declared, nodetypes, universals := Declared, NodeTypes, Universals;
    forall i | 0 <= i < |declared|
      ensures Listed(declared[i], nodetypes) || Listed(declared[i], universals)
    {
      EveryKindListed(declared[i]);
    }
    assert RegistryCheck(declared, nodetypes, universals).Ok?;
  }

  /** No argument type is listed twice. */
  predicate DistinctTypes(ts: seq<Ty>)
  {
    forall i, j :: 0 <= i < j < |ts| ==> ts[i] != ts[j]
  }

  /**
   * A node type whose `bake` cannot fail once it has one argument per input:
   * one template per output, and no field beyond the last argument.
   */
  predicate WellFormed(nt: NodeType)
  {
    && |nt.templates| == |nt.outtypes|
    && forall j :: 0 <= j < |nt.templates| ==> SlotsBelow(nt.templates[j], |nt.intypes|)
  }

  /**
   * `Descriptor(k)` is well formed, never repeats an input type, carries its
   * own kind, and takes no inputs exactly when it is a universal.
   */
  predicate KindWellFormed(k: NodeKind)
  {
    && WellFormed(Descriptor(k))
    && DistinctTypes(Descriptor(k).intypes)
    && Descriptor(k).kind == k
    && (Descriptor(k).intypes == [] <==> k in UniversalKinds)
  }

  // One lemma per node class keeps each proof obligation small.
  lemma ConstantFloatWellFormed()
    ensures KindWellFormed(ConstantFloat)
  {
  }

  lemma OwningEntityWellFormed()
    ensures KindWellFormed(OwningEntity)
  {
  }

  lemma InKeyWellFormed()
    ensures KindWellFormed(InKey)
  {
  }

  lemma InputClickWellFormed()
    ensures KindWellFormed(InputClick)
  {
  }

  lemma InputPerpendicularLineWellFormed()
    ensures KindWellFormed(InputPerpendicularLine)
  {
  }

  lemma InputClickDragReleaseDirectionWellFormed()
    ensures KindWellFormed(InputClickDragReleaseDirection)
  {
  }

  lemma InputClickChargeWellFormed()
    ensures KindWellFormed(InputClickCharge)
  {
  }

  lemma InputPlaceMinesWellFormed()
    ensures KindWellFormed(InputPlaceMines)
  {
  }

  lemma InputUnitTargetEnemyWellFormed()
    ensures KindWellFormed(InputUnitTargetEnemy)
  {
  }

  lemma InputToggleWellFormed()
    ensures KindWellFormed(InputToggle)
  {
  }

  lemma PositionToAreaWellFormed()
    ensures KindWellFormed(PositionToArea)
  {
  }

  lemma TimeBoolToRandomDirectionWellFormed()
    ensures KindWellFormed(TimeBoolToRandomDirection)
  {
  }

  lemma PositionFromEntityWellFormed()
    ensures KindWellFormed(PositionFromEntity)
  {
  }

  lemma EntitiesInAreaWellFormed()
    ensures KindWellFormed(EntitiesInArea)
  {
  }

  lemma DirectionToProjectileWellFormed()
    ensures KindWellFormed(DirectionToProjectile)
  {
  }

  lemma CloudFollowingPathWellFormed()
    ensures KindWellFormed(CloudFollowingPath)
  {
  }

  lemma PathToAreaWellFormed()
    ensures KindWellFormed(PathToArea)
  {
  }

  lemma AddDamageOnEntityWellFormed()
    ensures KindWellFormed(AddDamageOnEntity)
  {
  }

  lemma ConditionOnEntityWellFormed()
    ensures KindWellFormed(ConditionOnEntity)
  {
  }

  lemma TeleportPlayerWellFormed()
    ensures KindWellFormed(TeleportPlayer)
  {
  }

  lemma WallWellFormed()
    ensures KindWellFormed(Wall)
  {
  }

  lemma TerminateDamageWellFormed()
    ensures KindWellFormed(TerminateDamage)
  {
  }

  /** Every node type of the library is well formed and never repeats an input type. */
  lemma LibraryWellFormed(k: NodeKind)
    ensures KindWellFormed(k)
  {
    match k
    case ConstantFloat => ConstantFloatWellFormed();
    case OwningEntity => OwningEntityWellFormed();
    case InKey => InKeyWellFormed();
    case InputClick => InputClickWellFormed();
    case InputPerpendicularLine => InputPerpendicularLineWellFormed();
    case InputClickDragReleaseDirection => InputClickDragReleaseDirectionWellFormed();
    case InputClickCharge => InputClickChargeWellFormed();
    case InputPlaceMines => InputPlaceMinesWellFormed();
    case InputUnitTargetEnemy => InputUnitTargetEnemyWellFormed();
    case InputToggle => InputToggleWellFormed();
    case PositionToArea => PositionToAreaWellFormed();
    case TimeBoolToRandomDirection => TimeBoolToRandomDirectionWellFormed();
    case PositionFromEntity => PositionFromEntityWellFormed();
    case EntitiesInArea => EntitiesInAreaWellFormed();
    case DirectionToProjectile => DirectionToProjectileWellFormed();
    case CloudFollowingPath => CloudFollowingPathWellFormed();
    case PathToArea => PathToAreaWellFormed();
    case AddDamageOnEntity => AddDamageOnEntityWellFormed();
    case ConditionOnEntity => ConditionOnEntityWellFormed();
    case TeleportPlayer => TeleportPlayerWellFormed();
    case Wall => WallWellFormed();
    case TerminateDamage => TerminateDamageWellFormed();
  }

  /** The universals need no inputs; every other node type needs at least one. */
  lemma UniversalsHaveNoInputs()
    ensures forall i :: 0 <= i < |Universals| ==> Universals[i].intypes == []
    ensures forall i :: 0 <= i < |NodeTypes| ==> NodeTypes[i].intypes != []
  {
    var kinds := NodeTypeKinds;
    assert forall k :: k in kinds ==> k !in UniversalKinds;
    forall i | 0 <= i < |NodeTypes| ensures NodeTypes[i].intypes != [] {
      assert kinds[i] in kinds;
      LibraryWellFormed(kinds[i]);
    }
    forall i | 0 <= i < |Universals| ensures Universals[i].intypes == [] {
      LibraryWellFormed(UniversalKinds[i]);
    }
  }

  /** Every node type the search may add is well formed and never repeats an input type. */
  lemma NodeTypesWellFormed()
    ensures forall i :: 0 <= i < |NodeTypes| ==> WellFormed(NodeTypes[i]) && DistinctTypes(NodeTypes[i].intypes)
  {
    forall i | 0 <= i < |NodeTypes|
      ensures WellFormed(NodeTypes[i]) && DistinctTypes(NodeTypes[i].intypes)
    {
      LibraryWellFormed(NodeTypeKinds[i]);
    }
  }
}
