/**
 * The action catalog of one item type (getAllMassiveActions): the map from
 * action ids to labels built from the rights, the deleted/active scope and
 * the contributions of other parts of the application, minus the actions the
 * type forbids.
 */
module Catalog {
  import opened Wrappers
  import opened MassiveTypes

  /** update / delete / purge rights, of the type or of the probe item. */
  datatype Capabilities = Capabilities(canUpdate: bool, canDelete: bool, canPurge: bool)

  /**
   * What the catalog needs to know about one resolvable item type. The maps
   * are the actions that the other contributors add for this type in the
   * current request (Infocom, CommonDBConnexity, Document, Contract, the
   * type's getSpecificMassiveActions, each registered plugin's hook, Lock).
   */
  datatype TypeInfo = TypeInfo(
    caps: Capabilities,
    hasDevices: bool,                    // the type is in Item_Devices::getConcernedItems()
    isInfocomType: bool,                 // the type is in $CFG_GLPI["infocom_types"]
    maybeDeleted: bool,
    useDeletedToLockIfDynamic: bool,
    forbidden: set<ActionId>,            // getForbiddenStandardMassiveAction()
    infocom: map<ActionId, Label>,
    connexity: map<ActionId, Label>,
    document: map<ActionId, Label>,
    contract: map<ActionId, Label>,
    specific: map<ActionId, Label>,
    plugins: seq<map<ActionId, Label>>,
    lock: map<ActionId, Label>)

  /** Request-wide inputs: the optional probe item's rights and Infocom::canUpdate(). */
  datatype CatalogEnv = CatalogEnv(probe: Option<Capabilities>, infocomCanUpdate: bool)

  const UpdateAction: ActionId := "MassiveAction:update"
  const DeleteAction: ActionId := "MassiveAction:delete"
  const PurgeAction: ActionId := "MassiveAction:purge"
  const PurgeButDevicesAction: ActionId := "MassiveAction:purge_item_but_devices"
  const RestoreAction: ActionId := "MassiveAction:restore"
  const TransferListAction: ActionId := "MassiveAction:add_transfer_list"

  /** The standard action ids are pairwise distinct. */
  lemma StandardIdsDistinct()
    ensures UpdateAction != DeleteAction && UpdateAction != PurgeAction && UpdateAction != RestoreAction
    ensures UpdateAction != PurgeButDevicesAction && DeleteAction != PurgeButDevicesAction
    ensures DeleteAction != PurgeAction && DeleteAction != RestoreAction
    ensures PurgeAction != RestoreAction && PurgeAction != PurgeButDevicesAction
    ensures PurgeButDevicesAction != RestoreAction
    ensures TransferListAction !in {UpdateAction, DeleteAction, PurgeAction, PurgeButDevicesAction, RestoreAction}
  {
    assert UpdateAction[14] == 'u' && DeleteAction[14] == 'd' && PurgeAction[14] == 'p' && RestoreAction[14] == 'r';
    assert |PurgeAction| != |PurgeButDevicesAction|;
    assert PurgeButDevicesAction[14] == 'p' && TransferListAction[14] == 'a';
  }

  /** PHP's `$a += $b` on arrays: keys of `b` missing from `a` are added, `a` keeps its own. */
  function AddMissing(a: map<ActionId, Label>, b: map<ActionId, Label>): (r: map<ActionId, Label>)
    ensures r.Keys == a.Keys + b.Keys
    ensures forall k :: k in a ==> r[k] == a[k]
    ensures forall k :: k in b && k !in a ==> r[k] == b[k]
  {
    b + a
  }

  /** The plugin loop: each plugin's non-empty contribution is added with `+=`. */
  function AddPlugins(a: map<ActionId, Label>, plugins: seq<map<ActionId, Label>>): map<ActionId, Label>
    decreases |plugins|
  {
    if plugins == [] then a
    else AddPlugins(if |plugins[0]| > 0 then AddMissing(a, plugins[0]) else a, plugins[1..])
  }

  /** The keys some plugin contributes. */
  function PluginKeys(plugins: seq<map<ActionId, Label>>): set<ActionId>
    decreases |plugins|
  {
    if plugins == [] then {} else plugins[0].Keys + PluginKeys(plugins[1..])
  }

  /** The rights the catalog uses: the probe item's when one is given, else the type's. */
  function Rights(info: TypeInfo, env: CatalogEnv): Capabilities {
    if env.probe.Some? then env.probe.value else info.caps
  }

  /** Whether the type offers the soft delete ("Put in dustbin") rather than purge in active scope. */
  predicate UsesDustbin(info: TypeInfo) {
    info.maybeDeleted && !info.useDeletedToLockIfDynamic
  }

  /** The actions of the deleted (dustbin) scope. */
  function DeletedScope(info: TypeInfo, caps: Capabilities): map<ActionId, Label> {
    var purge :=
      if !caps.canPurge then map[]
      else if info.hasDevices then
        map[PurgeButDevicesAction := "Delete permanently but keep devices",
            PurgeAction := "Delete permanently and remove devices"]
      else map[PurgeAction := "Delete permanently"];
    if caps.canPurge then purge[RestoreAction := "Restore"] else purge
  }

  /** The update action, offered with the update right or, for an infocom type, Infocom's. */
  function UpdateEntry(info: TypeInfo, caps: Capabilities, env: CatalogEnv): map<ActionId, Label> {
    if caps.canUpdate || (info.isInfocomType && env.infocomCanUpdate) then map[UpdateAction := "Update"] else map[]
  }

  /** Dustbin or purge: the soft delete when the type uses the dustbin, else the purge. */
  function WithRemoval(a: map<ActionId, Label>, info: TypeInfo, caps: Capabilities): map<ActionId, Label> {
    if UsesDustbin(info) then (if caps.canDelete then a[DeleteAction := "Put in dustbin"] else a)
    else if caps.canPurge then a[PurgeAction := "Delete permanently"]
    else a
  }

  /** The active-scope actions up to the Contract contribution (the part built by assignment). */
  function AssignedActive(info: TypeInfo, caps: Capabilities, env: CatalogEnv): map<ActionId, Label> {
    WithRemoval(UpdateEntry(info, caps, env) + info.infocom + info.connexity, info, caps) + info.document + info.contract
  }

  /** The actions of the active scope, before Lock and the forbidden list. */
  function ActiveScope(info: TypeInfo, caps: Capabilities, env: CatalogEnv): map<ActionId, Label> {
    AddPlugins(AddMissing(AssignedActive(info, caps, env), info.specific), info.plugins)
  }

  /**
   * getAllMassiveActions: None for a type that cannot be resolved (the source
   * returns false), otherwise the scope's actions plus Lock's, without the
   * forbidden ones.
   */
  function AllMassiveActions(info: Option<TypeInfo>, isDeleted: bool, env: CatalogEnv): (r: Option<map<ActionId, Label>>)
    ensures r.Some? <==> info.Some?
    ensures r.Some? ==> forall a :: a in r.value ==> a !in info.value.forbidden
  {
    if info.None? then None
    else
      var caps := Rights(info.value, env);
      var scoped := if isDeleted then DeletedScope(info.value, caps) else ActiveScope(info.value, caps, env);
      Some((scoped + info.value.lock) - info.value.forbidden)
  }

  /** getAddTransferList: the transfer-list action, offered with the transfer READ right in multi-entity mode. */
  function AddTransferList(actions: map<ActionId, Label>, canReadTransfer: bool, multiEntities: bool): (r: map<ActionId, Label>)
    ensures TransferListAction in r <==> TransferListAction in actions || (canReadTransfer && multiEntities)
    ensures forall a :: a != TransferListAction ==> (a in r <==> a in actions) && (a in r ==> r[a] == actions[a])
  {
    if canReadTransfer && multiEntities then actions[TransferListAction := "Add to transfer list"] else actions
  }

  // ----- properties of the plugin fold -----

  /** The plugin fold adds exactly the plugins' keys and keeps every label already there. */
  lemma AddPluginsKeys(a: map<ActionId, Label>, plugins: seq<map<ActionId, Label>>)
    ensures AddPlugins(a, plugins).Keys == a.Keys + PluginKeys(plugins)
    ensures forall k :: k in a ==> AddPlugins(a, plugins)[k] == a[k]
  {
    AddPluginsDomain(a, plugins);
    forall k | k in a
      ensures AddPlugins(a, plugins)[k] == a[k]
    {
      AddPluginsKeeps(a, plugins, k);
    }
  }

  lemma {:induction false} AddPluginsDomain(a: map<ActionId, Label>, plugins: seq<map<ActionId, Label>>)
    ensures AddPlugins(a, plugins).Keys == a.Keys + PluginKeys(plugins)
    decreases |plugins|
  {
    if plugins != [] {
      var a' := if |plugins[0]| > 0 then AddMissing(a, plugins[0]) else a;
      assert a'.Keys == a.Keys + plugins[0].Keys by {
        if |plugins[0]| == 0 {
          assert plugins[0].Keys == {};
        }
      }
      AddPluginsDomain(a', plugins[1..]);
      assert PluginKeys(plugins) == plugins[0].Keys + PluginKeys(plugins[1..]);
    }
  }

  lemma {:induction false} AddPluginsKeeps(a: map<ActionId, Label>, plugins: seq<map<ActionId, Label>>, k: ActionId)
    requires k in a
    ensures k in AddPlugins(a, plugins) && AddPlugins(a, plugins)[k] == a[k]
    decreases |plugins|
  {
    if plugins != [] {
      var a' := if |plugins[0]| > 0 then AddMissing(a, plugins[0]) else a;
      assert k in a' && a'[k] == a[k];
      AddPluginsKeeps(a', plugins[1..], k);
    }
  }

  /** Among the plugins, the first one that contributes a key decides its label. */
  lemma {:induction false} PluginsFirstWins(a: map<ActionId, Label>, plugins: seq<map<ActionId, Label>>, j: nat, k: ActionId)
    requires j < |plugins| && k in plugins[j] && k !in a
    requires forall i :: 0 <= i < j ==> k !in plugins[i]
    ensures k in AddPlugins(a, plugins) && AddPlugins(a, plugins)[k] == plugins[j][k]
    decreases j
  {
    AddPluginsKeys(a, plugins);
    if j == 0 {
      AddPluginsKeys(AddMissing(a, plugins[0]), plugins[1..]);
    } else {
      assert k !in plugins[0];
      var a' := if |plugins[0]| > 0 then AddMissing(a, plugins[0]) else a;
      PluginsFirstWins(a', plugins[1..], j - 1, k);
    }
  }

  // ----- properties of the catalog -----

  /** The keys every contributor other than the standard actions may add in active scope. */
  function ActiveContributed(info: TypeInfo): set<ActionId> {
    info.infocom.Keys + info.connexity.Keys + info.document.Keys + info.contract.Keys
      + info.specific.Keys + PluginKeys(info.plugins) + info.lock.Keys
  }

  /** The standard actions offered in the deleted scope. */
  function DeletedStandard(info: TypeInfo, caps: Capabilities): set<ActionId> {
    if !caps.canPurge then {}
    else {PurgeAction, RestoreAction} + (if info.hasDevices then {PurgeButDevicesAction} else {})
  }

  /** The standard actions offered in the active scope. */
  function ActiveStandard(info: TypeInfo, caps: Capabilities, env: CatalogEnv): set<ActionId> {
    (if caps.canUpdate || (info.isInfocomType && env.infocomCanUpdate) then {UpdateAction} else {})
    + (if UsesDustbin(info) && caps.canDelete then {DeleteAction} else {})
    + (if !UsesDustbin(info) && caps.canPurge then {PurgeAction} else {})
  }

  /** Which of the three standard actions the active scope's standard set holds. */
  lemma ActiveStandardHas(info: TypeInfo, caps: Capabilities, env: CatalogEnv)
    ensures UpdateAction in ActiveStandard(info, caps, env) <==> caps.canUpdate || (info.isInfocomType && env.infocomCanUpdate)
    ensures DeleteAction in ActiveStandard(info, caps, env) <==> UsesDustbin(info) && caps.canDelete
    ensures PurgeAction in ActiveStandard(info, caps, env) <==> !UsesDustbin(info) && caps.canPurge
  {
    StandardIdsDistinct();
  }

  lemma MapUnionKeys(a: map<ActionId, Label>, b: map<ActionId, Label>)
    ensures (a + b).Keys == a.Keys + b.Keys
  {
  }

  lemma WithRemovalKeys(a: map<ActionId, Label>, info: TypeInfo, caps: Capabilities)
    ensures WithRemoval(a, info, caps).Keys
            == a.Keys + (if UsesDustbin(info) && caps.canDelete then {DeleteAction} else {})
               + (if !UsesDustbin(info) && caps.canPurge then {PurgeAction} else {})
  {
    if UsesDustbin(info) {
      if caps.canDelete {
        assert a[DeleteAction := "Put in dustbin"].Keys == a.Keys + {DeleteAction};
      }
    } else if caps.canPurge {
      assert a[PurgeAction := "Delete permanently"].Keys == a.Keys + {PurgeAction};
    }
  }

  lemma AssignedActiveKeys(info: TypeInfo, caps: Capabilities, env: CatalogEnv)
    ensures AssignedActive(info, caps, env).Keys
            == ActiveStandard(info, caps, env) + info.infocom.Keys + info.connexity.Keys
               + info.document.Keys + info.contract.Keys
  {
    var u := UpdateEntry(info, caps, env);
    var update := if caps.canUpdate || (info.isInfocomType && env.infocomCanUpdate) then {UpdateAction} else {};
    assert u.Keys == update;
    var a0 := u + info.infocom;
    MapUnionKeys(u, info.infocom);
    var a1 := a0 + info.connexity;
    MapUnionKeys(a0, info.connexity);
    assert a1.Keys == update + info.infocom.Keys + info.connexity.Keys;
    WithRemovalKeys(a1, info, caps);
    var del := if UsesDustbin(info) && caps.canDelete then {DeleteAction} else {};
    var purge := if !UsesDustbin(info) && caps.canPurge then {PurgeAction} else {};
    assert ActiveStandard(info, caps, env) == update + del + purge;
    var a2 := WithRemoval(a1, info, caps);
    assert a2.Keys == a1.Keys + del + purge;
    var a3 := a2 + info.document;
    MapUnionKeys(a2, info.document);
    MapUnionKeys(a3, info.contract);
    assert AssignedActive(info, caps, env) == a3 + info.contract;
    Regroup(update, info.infocom.Keys, info.connexity.Keys, del, purge, info.document.Keys, info.contract.Keys);
  }

  lemma Regroup(u: set<ActionId>, i: set<ActionId>, c: set<ActionId>, d: set<ActionId>, p: set<ActionId>,
                doc: set<ActionId>, k: set<ActionId>)
    ensures u + i + c + d + p + doc + k == (u + d + p) + i + c + doc + k
  {
  }

  lemma ActiveScopeKeys(info: TypeInfo, caps: Capabilities, env: CatalogEnv)
    ensures ActiveScope(info, caps, env).Keys
            == AssignedActive(info, caps, env).Keys + info.specific.Keys + PluginKeys(info.plugins)
  {
    AddPluginsKeys(AddMissing(AssignedActive(info, caps, env), info.specific), info.plugins);
  }

  lemma CatalogKeys(info: TypeInfo, isDeleted: bool, env: CatalogEnv)
    ensures var caps := Rights(info, env);
            var scoped := if isDeleted then DeletedScope(info, caps) else ActiveScope(info, caps, env);
            AllMassiveActions(Some(info), isDeleted, env).value.Keys == (scoped.Keys + info.lock.Keys) - info.forbidden
  {
    var caps := Rights(info, env);
    var scoped := if isDeleted then DeletedScope(info, caps) else ActiveScope(info, caps, env);
    MapUnionKeys(scoped, info.lock);
    var all := scoped + info.lock;
    assert (all - info.forbidden).Keys == all.Keys - info.forbidden;
  }

  /**
   * Active scope: the offered actions are the standard ones the rights allow
   * plus every contributed one, without the forbidden ones.
   */
  lemma ActiveScopeOffers(info: TypeInfo, env: CatalogEnv)
    ensures AllMassiveActions(Some(info), false, env).value.Keys
            == (ActiveStandard(info, Rights(info, env), env) + ActiveContributed(info)) - info.forbidden
  {
    var caps := Rights(info, env);
    CatalogKeys(info, false, env);
    ActiveScopeKeys(info, caps, env);
    AssignedActiveKeys(info, caps, env);
    RegroupActive(ActiveStandard(info, caps, env), info.infocom.Keys, info.connexity.Keys, info.document.Keys,
                  info.contract.Keys, info.specific.Keys, PluginKeys(info.plugins), info.lock.Keys, info.forbidden);
  }

  lemma RegroupActive(std: set<ActionId>, i: set<ActionId>, c: set<ActionId>, doc: set<ActionId>, k: set<ActionId>,
                      sp: set<ActionId>, pk: set<ActionId>, l: set<ActionId>, f: set<ActionId>)
    ensures ((std + i + c + doc + k) + sp + pk + l) - f == (std + (i + c + doc + k + sp + pk + l)) - f
  {
  }

  /**
   * Deleted scope: exactly purge, restore and (for device-bearing types)
   * purge-but-keep-devices, each only with the purge right, plus Lock's
   * actions, without the forbidden ones; purge says whether devices go too.
   */
  lemma DeletedScopeOffers(info: TypeInfo, env: CatalogEnv)
    ensures AllMassiveActions(Some(info), true, env).value.Keys
            == (DeletedStandard(info, Rights(info, env)) + info.lock.Keys) - info.forbidden
    ensures var r := AllMassiveActions(Some(info), true, env).value;
            PurgeAction in r && PurgeAction !in info.lock ==>
              r[PurgeAction] == (if info.hasDevices then "Delete permanently and remove devices" else "Delete permanently")
  {
    StandardIdsDistinct();
    CatalogKeys(info, true, env);
    var caps := Rights(info, env);
    assert DeletedScope(info, caps).Keys == DeletedStandard(info, caps);
  }

  /** Active scope: update is offered iff the update right (or Infocom's, for an infocom type) or a contributor offers it. */
  lemma UpdateOffered(info: TypeInfo, env: CatalogEnv)
    ensures var caps := Rights(info, env);
            UpdateAction in AllMassiveActions(Some(info), false, env).value
            <==> UpdateAction !in info.forbidden
                 && (caps.canUpdate || (info.isInfocomType && env.infocomCanUpdate) || UpdateAction in ActiveContributed(info))
  {
    ActiveStandardHas(info, Rights(info, env), env);
    ActiveScopeOffers(info, env);
  }

  /**
   * Active scope: "Put in dustbin" is offered iff the type may be deleted, does
   * not use the deleted flag as a lock of dynamic items and the delete right
   * holds, or a contributor offers it.
   */
  lemma DeleteOffered(info: TypeInfo, env: CatalogEnv)
    ensures var caps := Rights(info, env);
            DeleteAction in AllMassiveActions(Some(info), false, env).value
            <==> DeleteAction !in info.forbidden
                 && ((UsesDustbin(info) && caps.canDelete) || DeleteAction in ActiveContributed(info))
  {
    var caps := Rights(info, env);
    ActiveStandardHas(info, caps, env);
    ActiveScopeOffers(info, env);
  }

  /**
   * Active scope: purge is offered instead of the dustbin: iff the type does
   * not use the dustbin and the purge right holds, or a contributor offers it.
   */
  lemma PurgeOfferedWithoutDustbin(info: TypeInfo, env: CatalogEnv)
    ensures var caps := Rights(info, env);
            PurgeAction in AllMassiveActions(Some(info), false, env).value
            <==> PurgeAction !in info.forbidden
                 && ((!UsesDustbin(info) && caps.canPurge) || PurgeAction in ActiveContributed(info))
  {
    ActiveStandardHas(info, Rights(info, env), env);
    ActiveScopeOffers(info, env);
  }

  /** The dustbin label is kept unless Document, Contract or Lock overwrite it. */
  lemma {:induction false} DustbinLabel(info: TypeInfo, env: CatalogEnv)
    requires UsesDustbin(info) && Rights(info, env).canDelete && DeleteAction !in info.forbidden
    requires DeleteAction !in info.document && DeleteAction !in info.contract && DeleteAction !in info.lock
    ensures var r := AllMassiveActions(Some(info), false, env).value;
            DeleteAction in r && r[DeleteAction] == "Put in dustbin"
  {
    var caps := Rights(info, env);
    var a := AssignedActive(info, caps, env);
    assert a[DeleteAction] == "Put in dustbin";
    AddPluginsKeys(AddMissing(a, info.specific), info.plugins);
  }

  /**
   * `+=` keeps the first contribution: an action offered only by the type's
   * specific actions and the plugins gets the type's label when the type
   * offers it, and otherwise the label of the first plugin offering it.
   */
  lemma {:induction false} FirstContributionWins(info: TypeInfo, env: CatalogEnv, k: ActionId, j: nat)
    requires k !in {UpdateAction, DeleteAction, PurgeAction}
    requires k !in info.infocom && k !in info.connexity && k !in info.document && k !in info.contract
    requires k !in info.lock && k !in info.forbidden
    requires j < |info.plugins| && k in info.plugins[j] && forall i :: 0 <= i < j ==> k !in info.plugins[i]
    ensures var r := AllMassiveActions(Some(info), false, env).value;
            k in r && r[k] == (if k in info.specific then info.specific[k] else info.plugins[j][k])
  {
    var caps := Rights(info, env);
    var a3 := AssignedActive(info, caps, env);
    assert k !in a3;
    var a4 := AddMissing(a3, info.specific);
    AddPluginsKeys(a4, info.plugins);
    if k !in info.specific {
      PluginsFirstWins(a4, info.plugins, j, k);
    }
  }
}
