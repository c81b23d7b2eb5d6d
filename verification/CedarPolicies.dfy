/** The deployed permit set: the action lists and the groups that hold them, printed as Cedar
    statements, and the decision those statements give. */
module CedarPolicies {
  import opened CedarText

  // ---- The lists, the longer ones in parts

  const ROLE_GROUPS: seq<PlainString> := [
    "MEMBER", "OFFICER", "TRAINING", "APPARATUS", "ADMIN", "CHIEF"
  ]
  const ADMIN_ONLY_ACTIONS_1: seq<PlainString> := [
    "UpdateConfig", "ExportData", "RunRecordsDisposal", "ViewRetentionConfig"
  ]
  const ADMIN_ONLY_ACTIONS_2: seq<PlainString> := [
    "UpdateRetentionConfig", "UpdateMember", "RevokeSession", "ResetMemberCredentials"
  ]
  const ADMIN_ONLY_ACTIONS_3: seq<PlainString> := [
    "ViewMemberDevices", "ViewAuditTrail", "ExportReport", "RecordCutoverDecision"
  ]
  const ADMIN_ONLY_ACTIONS_4: seq<PlainString> := [
    "ArchiveOccupancy", "ArchiveHydrant", "ViewCadIngress", "ManageCadIngress"
  ]
  const ADMIN_ONLY_ACTIONS: seq<PlainString> :=
    ADMIN_ONLY_ACTIONS_1 + ADMIN_ONLY_ACTIONS_2 + ADMIN_ONLY_ACTIONS_3 + ADMIN_ONLY_ACTIONS_4
  const ADMIN_ONLY_GROUPS: seq<PlainString> := [
    "CHIEF", "ADMIN"
  ]
  const VIEW_ACTIONS: seq<PlainString> := [
    "ViewConfig"
  ]
  const SELF_SERVICE_ACTIONS_1: seq<PlainString> := [
    "SelfUpdateMember", "RecordAttendance", "ViewOwnAttendance", "MarkAvailability"
  ]
  const SELF_SERVICE_ACTIONS_2: seq<PlainString> := [
    "ViewOwnAvailability", "EndOwnMarkoff", "ViewOwnLosapTotal", "GetQuals"
  ]
  const SELF_SERVICE_ACTIONS_3: seq<PlainString> := [
    "ViewTranscript", "ViewCertifications", "ViewTrainingHours", "ViewOwnNotifications"
  ]
  const SELF_SERVICE_ACTIONS_4: seq<PlainString> := [
    "MarkNotificationRead", "ViewOwnNotificationPreferences", "UpdateOwnNotificationPreferences"
  ]
  const SELF_SERVICE_ACTIONS: seq<PlainString> :=
    SELF_SERVICE_ACTIONS_1 + SELF_SERVICE_ACTIONS_2 + SELF_SERVICE_ACTIONS_3 + SELF_SERVICE_ACTIONS_4
  const OFFICER_TIER_ACTIONS_1: seq<PlainString> := [
    "RecordAttendanceOnBehalf", "ViewAttendanceOnBehalf", "ApproveShiftSwap", "ListPendingShiftSwaps"
  ]
  const OFFICER_TIER_ACTIONS_2: seq<PlainString> := [
    "CreateTrainingEvent", "RecordTrainingAttendance", "UpdateQuals", "CreateCertification"
  ]
  const OFFICER_TIER_ACTIONS_3: seq<PlainString> := [
    "RevokeCertification", "ViewExpiringCertifications", "ViewIsoTrainingReport", "ViewRosterTrainingHours"
  ]
  const OFFICER_TIER_ACTIONS_4: seq<PlainString> := [
    "AssignRidingPosition", "ViewOperationalDashboard", "GetLosapYearEnd", "ViewIsoReport"
  ]
  const OFFICER_TIER_ACTIONS_5: seq<PlainString> := [
    "ViewGrantsReport", "ViewResponseTimes", "ViewMembershipTrends", "ViewCutoverDecision"
  ]
  const OFFICER_TIER_ACTIONS: seq<PlainString> :=
    OFFICER_TIER_ACTIONS_1 + OFFICER_TIER_ACTIONS_2 + OFFICER_TIER_ACTIONS_3 + OFFICER_TIER_ACTIONS_4
    + OFFICER_TIER_ACTIONS_5
  const OFFICER_TIER_GROUPS: seq<PlainString> := [
    "OFFICER", "TRAINING", "CHIEF", "ADMIN"
  ]
  const APPARATUS_MEMBER_ACTIONS_1: seq<PlainString> := [
    "GetChecklist", "SubmitApparatusCheck", "AttachCheckPhoto", "ReportDefect", "ViewMaintenanceHistory"
  ]
  const APPARATUS_MEMBER_ACTIONS_2: seq<PlainString> := [
    "LogScbaRecord", "ViewScbaTestingSchedules", "ViewTestingSchedules", "ListCompartmentInventory"
  ]
  const APPARATUS_MEMBER_ACTIONS: seq<PlainString> :=
    APPARATUS_MEMBER_ACTIONS_1 + APPARATUS_MEMBER_ACTIONS_2
  const APPARATUS_OFFICER_ACTIONS_1: seq<PlainString> := [
    "UpdateServiceStatus", "GetComplianceReport", "ListOpenDefects", "ResolveDefect"
  ]
  const APPARATUS_OFFICER_ACTIONS_2: seq<PlainString> := [
    "LogMaintenanceRecord", "LogApparatusTestRecord", "CreateCompartmentItem", "UpdateCompartmentItemQuantity"
  ]
  const APPARATUS_OFFICER_ACTIONS: seq<PlainString> :=
    APPARATUS_OFFICER_ACTIONS_1 + APPARATUS_OFFICER_ACTIONS_2
  const APPARATUS_OFFICER_GROUPS: seq<PlainString> := [
    "APPARATUS", "OFFICER", "CHIEF", "ADMIN"
  ]
  const INVENTORY_READ_ACTIONS: seq<PlainString> := [
    "ListEquipment", "ViewEquipmentAsset", "ListConsumables", "ViewPpeAssignments"
  ]
  const INVENTORY_ADMIN_ACTIONS_1: seq<PlainString> := [
    "RegisterEquipmentAsset", "AssignEquipmentAsset", "SetEquipmentLocation", "TransitionAssetLifecycle"
  ]
  const INVENTORY_ADMIN_ACTIONS_2: seq<PlainString> := [
    "IssuePpeAssignment", "RestockConsumable", "CreateConsumable"
  ]
  const INVENTORY_ADMIN_ACTIONS: seq<PlainString> :=
    INVENTORY_ADMIN_ACTIONS_1 + INVENTORY_ADMIN_ACTIONS_2
  const INVENTORY_ADMIN_GROUPS: seq<PlainString> := [
    "OFFICER", "CHIEF", "ADMIN"
  ]
  const ALERTING_MEMBER_ACTIONS_1: seq<PlainString> := [
    "ViewAlertDetail", "ListActiveDispatches", "ViewRoster", "RecordResponse", "SelfTestAlertPath"
  ]
  const ALERTING_MEMBER_ACTIONS_2: seq<PlainString> := [
    "ReportDeviceState", "ViewOwnDiagnostics", "ViewOwnDeliveryHistory", "RegisterPushToken", "RevokePushToken"
  ]
  const ALERTING_MEMBER_ACTIONS: seq<PlainString> :=
    ALERTING_MEMBER_ACTIONS_1 + ALERTING_MEMBER_ACTIONS_2
  const ALERTING_OFFICER_ACTIONS_1: seq<PlainString> := [
    "SubmitManualDispatch", "GetDeliveryReceipts", "ViewDiagnostics", "ViewAlertingAuditLog", "ViewCanaryStatus"
  ]
  const ALERTING_OFFICER_ACTIONS_2: seq<PlainString> := [
    "ViewDeliveryBaseline", "AdvanceToneLadder", "HaltToneLadder", "TriggerMutualAid", "AcknowledgeMutualAid"
  ]
  const ALERTING_OFFICER_ACTIONS: seq<PlainString> :=
    ALERTING_OFFICER_ACTIONS_1 + ALERTING_OFFICER_ACTIONS_2
  const ALERTING_OFFICER_GROUPS: seq<PlainString> := [
    "OFFICER", "CHIEF", "ADMIN"
  ]
  const INSPECTIONS_MEMBER_ACTIONS_1: seq<PlainString> := [
    "GetPrePlan", "ListInspections", "ViewInspectionsMap"
  ]
  const INSPECTIONS_MEMBER_ACTIONS_2: seq<PlainString> := [
    "ScheduleInspection", "ConductInspection", "SubmitFieldCapture"
  ]
  const INSPECTIONS_MEMBER_ACTIONS: seq<PlainString> :=
    INSPECTIONS_MEMBER_ACTIONS_1 + INSPECTIONS_MEMBER_ACTIONS_2
  const INSPECTIONS_OFFICER_ACTIONS: seq<PlainString> := [
    "WriteOccupancy", "UpdatePrePlan", "CreateHydrant", "UpdateHydrant"
  ]
  const INSPECTIONS_OFFICER_GROUPS: seq<PlainString> := [
    "OFFICER", "CHIEF", "ADMIN"
  ]
  const NERIS_MEMBER_ACTIONS: seq<PlainString> := [
    "ValidateIncidentReport", "ViewNerisSchema", "EditIncidentModule", "EditIncidentExposures"
  ]
  const NERIS_OFFICER_ACTIONS_1: seq<PlainString> := [
    "CreateIncidentReport", "LockIncidentReport", "SubmitIncidentReport", "ResubmitIncidentReport"
  ]
  const NERIS_OFFICER_ACTIONS_2: seq<PlainString> := [
    "RetryIncidentSubmission", "ViewIncidentSubmission", "RecordExposureForOthers", "FileNoActivityReport"
  ]
  const NERIS_OFFICER_ACTIONS_3: seq<PlainString> := [
    "ViewNerisCompliance", "ViewNerisEntity", "ListRecentDispatches"
  ]
  const NERIS_OFFICER_ACTIONS: seq<PlainString> :=
    NERIS_OFFICER_ACTIONS_1 + NERIS_OFFICER_ACTIONS_2 + NERIS_OFFICER_ACTIONS_3
  const NERIS_OFFICER_GROUPS: seq<PlainString> := [
    "OFFICER", "CHIEF", "ADMIN"
  ]
  const AVAILABILITY_OFFICER_ACTIONS: seq<PlainString> := [
    "ViewMemberAvailability", "EndMemberMarkoff"
  ]
  const AVAILABILITY_OFFICER_GROUPS: seq<PlainString> := [
    "OFFICER", "CHIEF", "ADMIN"
  ]
  const NERIS_ADMIN_ACTIONS: seq<PlainString> := [
    "UnlockIncidentReport", "SyncNerisEntity"
  ]

  datatype Gated = Gated(groups: seq<string>, actions: seq<string>)

  /** The sixteen policies of the store. */
  datatype PolicyName =
    | AdminActions | ViewConfig | SelfService | OfficerTier
    | ApparatusMember | ApparatusOfficer | InventoryRead | InventoryAdmin
    | AlertingMember | AlertingOfficer | InspectionsMember | InspectionsOfficer
    | AvailabilityOfficer | NerisMember | NerisOfficer | NerisAdmin

  const POLICY_NAMES: seq<PolicyName> := [
    AdminActions, ViewConfig, SelfService, OfficerTier,
    ApparatusMember, ApparatusOfficer, InventoryRead, InventoryAdmin,
    AlertingMember, AlertingOfficer, InspectionsMember, InspectionsOfficer,
    AvailabilityOfficer, NerisMember, NerisOfficer, NerisAdmin
  ]

  function PolicyOf(name: PolicyName): Gated {
    match name
    case AdminActions => Gated(ADMIN_ONLY_GROUPS, ADMIN_ONLY_ACTIONS)
    case ViewConfig => Gated(ROLE_GROUPS, VIEW_ACTIONS)
    case SelfService => Gated(ROLE_GROUPS, SELF_SERVICE_ACTIONS)
    case OfficerTier => Gated(OFFICER_TIER_GROUPS, OFFICER_TIER_ACTIONS)
    case ApparatusMember => Gated(ROLE_GROUPS, APPARATUS_MEMBER_ACTIONS)
    case ApparatusOfficer => Gated(APPARATUS_OFFICER_GROUPS, APPARATUS_OFFICER_ACTIONS)
    case InventoryRead => Gated(ROLE_GROUPS, INVENTORY_READ_ACTIONS)
    case InventoryAdmin => Gated(INVENTORY_ADMIN_GROUPS, INVENTORY_ADMIN_ACTIONS)
    case AlertingMember => Gated(ROLE_GROUPS, ALERTING_MEMBER_ACTIONS)
    case AlertingOfficer => Gated(ALERTING_OFFICER_GROUPS, ALERTING_OFFICER_ACTIONS)
    case InspectionsMember => Gated(ROLE_GROUPS, INSPECTIONS_MEMBER_ACTIONS)
    case InspectionsOfficer => Gated(INSPECTIONS_OFFICER_GROUPS, INSPECTIONS_OFFICER_ACTIONS)
    case AvailabilityOfficer => Gated(AVAILABILITY_OFFICER_GROUPS, AVAILABILITY_OFFICER_ACTIONS)
    case NerisMember => Gated(ROLE_GROUPS, NERIS_MEMBER_ACTIONS)
    case NerisOfficer => Gated(NERIS_OFFICER_GROUPS, NERIS_OFFICER_ACTIONS)
    case NerisAdmin => Gated(ADMIN_ONLY_GROUPS, NERIS_ADMIN_ACTIONS)
  }

  function Deployed(): seq<Gated> {
    seq(|POLICY_NAMES|, i requires 0 <= i < |POLICY_NAMES| => PolicyOf(POLICY_NAMES[i]))
  }

  function Printed(userPoolId: string, policies: seq<Gated>): (texts: seq<string>)
    ensures |texts| == |policies|
  {
    seq(|policies|, i requires 0 <= i < |policies| =>
      RoleGatedPolicy(userPoolId, policies[i].groups, policies[i].actions))
  }

  // ---- Evaluation

  predicate Permits(p: Policy, principalGroups: set<string>, action: string) {
    action in p.actions && exists id :: id in p.groupIds && id in principalGroups
  }

  /** Permits only: a request is allowed when some statement permits it. */
  predicate Decision(texts: seq<string>, principalGroups: set<string>, action: string) {
    exists text :: text in texts && Parse(text).Some? && Permits(Parse(text).value, principalGroups, action)
  }

  /** The group entities of a token: its pool's id with each group name it lists. */
  function TokenGroups(userPoolId: string, groups: set<string>): set<string> {
    set g | g in groups :: GroupEntityId(userPoolId, g)
  }

  predicate Holds(p: Gated, groups: set<string>, action: string) {
    action in p.actions && exists g :: g in p.groups && g in groups
  }

  predicate Lookup(policies: seq<Gated>, groups: set<string>, action: string) {
    exists p :: p in policies && Holds(p, groups, action)
  }

  predicate Printable(policies: seq<Gated>) {
    forall p :: p in policies ==> p.groups != [] && AllPlain(p.groups) && AllPlain(p.actions)
  }

  lemma GroupEntityIdInjective(pool: string, g: string, h: string)
    ensures GroupEntityId(pool, g) == GroupEntityId(pool, h) <==> g == h
  {
    assert GroupEntityId(pool, g)[|pool| + 1..] == g && GroupEntityId(pool, h)[|pool| + 1..] == h;
  }

  lemma PermitsAsHeld(pool: string, p: Gated, groups: set<string>, action: string)
    ensures Permits(Policy(p.actions, GroupIds(pool, p.groups)), TokenGroups(pool, groups), action)
       <==> Holds(p, groups, action)
  {
    var ids := GroupIds(pool, p.groups);
    if g :| g in p.groups && g in groups {
      var i :| 0 <= i < |p.groups| && p.groups[i] == g;
      assert ids[i] in ids && ids[i] in TokenGroups(pool, groups);
    }
    if id :| id in ids && id in TokenGroups(pool, groups) {
      var i :| 0 <= i < |ids| && ids[i] == id;
      var h :| h in groups && GroupEntityId(pool, h) == id;
      GroupEntityIdInjective(pool, p.groups[i], h);
      assert p.groups[i] in p.groups;
    }
  }

  lemma StatementPermits(pool: string, policies: seq<Gated>, i: nat, groups: set<string>, action: string)
    requires Plain(pool) && Printable(policies) && i < |policies|
    ensures var parsed := Parse(Printed(pool, policies)[i]);
      parsed.Some? && (Permits(parsed.value, TokenGroups(pool, groups), action) <==> Holds(policies[i], groups, action))
  {
    var p := policies[i];
    assert p in policies;
    PrintedParses(pool, p.groups, p.actions);
    PermitsAsHeld(pool, p, groups, action);
  }

  /** Evaluating the printed statements is a table lookup, for every pool and every group set. */
  lemma DecisionIsLookup(pool: string, policies: seq<Gated>, groups: set<string>, action: string)
    requires Plain(pool) && Printable(policies)
    ensures Decision(Printed(pool, policies), TokenGroups(pool, groups), action) <==> Lookup(policies, groups, action)
  {
    var texts, token := Printed(pool, policies), TokenGroups(pool, groups);
    if Lookup(policies, groups, action) {
      var p :| p in policies && Holds(p, groups, action);
      var i :| 0 <= i < |policies| && policies[i] == p;
      StatementPermits(pool, policies, i, groups, action);
      assert texts[i] in texts;
    }
    if Decision(texts, token, action) {
      var text :| text in texts && Parse(text).Some? && Permits(Parse(text).value, token, action);
      var i :| 0 <= i < |texts| && texts[i] == text;
      StatementPermits(pool, policies, i, groups, action);
      assert policies[i] in policies;
    }
  }

  lemma OtherPoolsStatement(
    pool: string, other: string, p: Policy, names: seq<string>, groups: set<string>, action: string)
    requires '|' !in pool && '|' !in other && pool != other && p.groupIds == GroupIds(pool, names)
    ensures !Permits(p, TokenGroups(other, groups), action)
  {
    forall id | id in p.groupIds ensures id !in TokenGroups(other, groups) {
      var j :| 0 <= j < |p.groupIds| && p.groupIds[j] == id;
      forall h | h in groups ensures GroupEntityId(other, h) != id {
        if GroupEntityId(other, h) == id {
          PoolsApart(pool, names[j], other, h);
        }
      }
    }
  }

  /** A token of another pool matches nothing, whatever its groups are called. */
  lemma OtherPoolsMatchNothing(
    pool: string, other: string, policies: seq<Gated>, groups: set<string>, action: string)
    requires Plain(pool) && Printable(policies) && '|' !in pool && '|' !in other && pool != other
    ensures !Decision(Printed(pool, policies), TokenGroups(other, groups), action)
  {
    var texts := Printed(pool, policies);
    forall text | text in texts && Parse(text).Some? ensures !Permits(Parse(text).value, TokenGroups(other, groups), action) {
      var i :| 0 <= i < |texts| && texts[i] == text;
      assert policies[i] in policies;
      PrintedParses(pool, policies[i].groups, policies[i].actions);
      OtherPoolsStatement(pool, other, Parse(text).value, policies[i].groups, groups, action);
    }
  }

  lemma PoolsApart(pool: string, g: string, other: string, h: string)
    requires '|' !in pool && '|' !in other && GroupEntityId(pool, g) == GroupEntityId(other, h)
    ensures pool == other
  {
    var id := GroupEntityId(pool, g);
    assert id[|pool|] == '|' && id[|other|] == '|';
    assert forall k :: 0 <= k < |pool| ==> id[k] == pool[k] && id[k] in pool;
    assert forall k :: 0 <= k < |other| ==> id[k] == other[k] && id[k] in other;
    assert id[..|pool|] == pool && id[..|other|] == other;
  }

  /** More groups never take a permission away. */
  lemma DecisionIsMonotone(texts: seq<string>, fewer: set<string>, more: set<string>, action: string)
    requires fewer <= more && Decision(texts, fewer, action)
    ensures Decision(texts, more, action)
  {
    var text :| text in texts && Parse(text).Some? && Permits(Parse(text).value, fewer, action);
    var id :| id in Parse(text).value.groupIds && id in fewer;
    assert id in more;
  }

  // ---- The tiers

  /** Who may do what, written down independently of the lists above. */
  datatype Tier = Tier(groups: set<string>, actions: set<string>)

  const EVERY_ROLE := Tier(
    {"MEMBER", "OFFICER", "TRAINING", "APPARATUS", "ADMIN", "CHIEF"},
    {
      "ViewConfig", "SelfUpdateMember", "RecordAttendance", "ViewOwnAttendance", "MarkAvailability",
      "ViewOwnAvailability", "EndOwnMarkoff", "ViewOwnLosapTotal", "GetQuals", "ViewTranscript",
      "ViewCertifications", "ViewTrainingHours", "ViewOwnNotifications", "MarkNotificationRead",
      "ViewOwnNotificationPreferences", "UpdateOwnNotificationPreferences"
    } + {
      "GetChecklist", "SubmitApparatusCheck", "AttachCheckPhoto", "ReportDefect", "ViewMaintenanceHistory",
      "LogScbaRecord", "ViewScbaTestingSchedules", "ViewTestingSchedules", "ListCompartmentInventory",
      "ViewAlertDetail",
      "ListActiveDispatches", "ViewRoster", "RecordResponse", "SelfTestAlertPath", "ReportDeviceState",
      "ViewOwnDiagnostics", "ViewOwnDeliveryHistory", "RegisterPushToken", "RevokePushToken"
    } + {
      "ValidateIncidentReport", "ViewNerisSchema", "EditIncidentModule", "EditIncidentExposures",
      "ListEquipment", "ViewEquipmentAsset", "ListConsumables", "ViewPpeAssignments", "GetPrePlan",
      "ListInspections", "ScheduleInspection", "ConductInspection", "SubmitFieldCapture", "ViewInspectionsMap"
    })
  const CHIEF_ADMIN := Tier(
    {"ADMIN", "CHIEF"},
    {
      "UpdateConfig", "ExportData", "RunRecordsDisposal", "ViewRetentionConfig", "UpdateRetentionConfig",
      "UpdateMember", "RevokeSession", "ResetMemberCredentials", "ViewMemberDevices", "ViewAuditTrail",
      "ViewCadIngress", "ManageCadIngress", "UnlockIncidentReport", "SyncNerisEntity", "ArchiveOccupancy",
      "ArchiveHydrant", "RecordCutoverDecision", "ExportReport"
    })
  const OFFICER_TRAINING := Tier(
    {"OFFICER", "TRAINING", "ADMIN", "CHIEF"},
    {
      "RecordAttendanceOnBehalf", "ViewAttendanceOnBehalf", "UpdateQuals", "CreateCertification",
      "RevokeCertification", "ViewExpiringCertifications", "ViewIsoTrainingReport", "ViewRosterTrainingHours",
      "CreateTrainingEvent", "RecordTrainingAttendance", "ApproveShiftSwap", "ListPendingShiftSwaps",
      "AssignRidingPosition", "ViewOperationalDashboard", "GetLosapYearEnd", "ViewIsoReport",
      "ViewGrantsReport", "ViewResponseTimes", "ViewMembershipTrends", "ViewCutoverDecision"
    })
  const OFFICER := Tier(
    {"OFFICER", "ADMIN", "CHIEF"},
    {
      "ViewMemberAvailability", "EndMemberMarkoff", "SubmitManualDispatch", "GetDeliveryReceipts",
      "ViewDiagnostics", "ViewAlertingAuditLog", "ViewCanaryStatus", "ViewDeliveryBaseline",
      "AdvanceToneLadder", "HaltToneLadder", "TriggerMutualAid", "AcknowledgeMutualAid",
      "CreateIncidentReport", "LockIncidentReport", "SubmitIncidentReport", "ResubmitIncidentReport",
      "RetryIncidentSubmission", "ViewIncidentSubmission", "RecordExposureForOthers", "FileNoActivityReport",
      "ViewNerisCompliance", "ViewNerisEntity", "ListRecentDispatches", "RegisterEquipmentAsset",
      "AssignEquipmentAsset", "SetEquipmentLocation", "TransitionAssetLifecycle", "IssuePpeAssignment",
      "RestockConsumable", "CreateConsumable", "UpdatePrePlan", "WriteOccupancy", "CreateHydrant",
      "UpdateHydrant"
    })
  const APPARATUS_OFFICER := Tier(
    {"OFFICER", "APPARATUS", "ADMIN", "CHIEF"},
    {
      "UpdateServiceStatus", "GetComplianceReport", "ListOpenDefects", "ResolveDefect", "LogMaintenanceRecord",
      "LogApparatusTestRecord", "CreateCompartmentItem", "UpdateCompartmentItemQuantity"
    })

  const TIERS := [EVERY_ROLE, CHIEF_ADMIN, OFFICER_TRAINING, OFFICER, APPARATUS_OFFICER]

  predicate InTier(tiers: seq<Tier>, groups: set<string>, action: string) {
    exists t :: t in tiers && action in t.actions && t.groups * groups != {}
  }

  predicate EveryRoleListed(action: string) {
    || action in VIEW_ACTIONS || action in SELF_SERVICE_ACTIONS || action in APPARATUS_MEMBER_ACTIONS
    || action in INVENTORY_READ_ACTIONS || action in ALERTING_MEMBER_ACTIONS
    || action in INSPECTIONS_MEMBER_ACTIONS || action in NERIS_MEMBER_ACTIONS
  }

  lemma EveryRoleActions(action: string)
    ensures action in EVERY_ROLE.actions <==> EveryRoleListed(action)
  {
    assert action in VIEW_ACTIONS <==> action == VIEW_ACTIONS[0];
  }

  lemma OfficerActions(action: string)
    ensures action in OFFICER.actions <==>
      || action in INVENTORY_ADMIN_ACTIONS || action in ALERTING_OFFICER_ACTIONS
      || action in INSPECTIONS_OFFICER_ACTIONS || action in AVAILABILITY_OFFICER_ACTIONS
      || action in NERIS_OFFICER_ACTIONS
  {
  }

  lemma OtherTierActions(action: string)
    ensures action in CHIEF_ADMIN.actions <==> action in ADMIN_ONLY_ACTIONS || action in NERIS_ADMIN_ACTIONS
    ensures action in OFFICER_TRAINING.actions <==> action in OFFICER_TIER_ACTIONS
    ensures action in APPARATUS_OFFICER.actions <==> action in APPARATUS_OFFICER_ACTIONS
  {
  }

  /** The groups of a list, as far as a token's groups go. */
  predicate AnyOf(listed: seq<string>, groups: set<string>) {
    exists g :: g in listed && g in groups
  }

  lemma TierGroups(groups: set<string>)
    ensures AnyOf(ROLE_GROUPS, groups) <==> EVERY_ROLE.groups * groups != {}
    ensures AnyOf(ADMIN_ONLY_GROUPS, groups) <==> CHIEF_ADMIN.groups * groups != {}
    ensures AnyOf(OFFICER_TIER_GROUPS, groups) <==> OFFICER_TRAINING.groups * groups != {}
    ensures AnyOf(APPARATUS_OFFICER_GROUPS, groups) <==> APPARATUS_OFFICER.groups * groups != {}
    ensures AnyOf(NERIS_OFFICER_GROUPS, groups) <==> OFFICER.groups * groups != {}
  {
    SameGroups(ROLE_GROUPS, EVERY_ROLE.groups, groups);
    SameGroups(ADMIN_ONLY_GROUPS, CHIEF_ADMIN.groups, groups);
    SameGroups(OFFICER_TIER_GROUPS, OFFICER_TRAINING.groups, groups);
    SameGroups(APPARATUS_OFFICER_GROUPS, APPARATUS_OFFICER.groups, groups);
    SameGroups(NERIS_OFFICER_GROUPS, OFFICER.groups, groups);
  }

  lemma SameGroups(listed: seq<string>, tier: set<string>, groups: set<string>)
    requires forall g :: g in listed <==> g in tier
    ensures AnyOf(listed, groups) <==> tier * groups != {}
  {
    if g :| g in listed && g in groups {
      assert g in tier * groups;
    }
    if tier * groups != {} {
      var g :| g in tier * groups;
      assert g in listed && g in groups;
    }
  }

  predicate AnyHolds(groups: set<string>, action: string) {
    || (AnyOf(ROLE_GROUPS, groups) && EveryRoleListed(action))
    || (AnyOf(ADMIN_ONLY_GROUPS, groups) && (action in ADMIN_ONLY_ACTIONS || action in NERIS_ADMIN_ACTIONS))
    || (AnyOf(OFFICER_TIER_GROUPS, groups) && action in OFFICER_TIER_ACTIONS)
    || (AnyOf(APPARATUS_OFFICER_GROUPS, groups) && action in APPARATUS_OFFICER_ACTIONS)
    || (AnyOf(NERIS_OFFICER_GROUPS, groups)
        && (action in INVENTORY_ADMIN_ACTIONS || action in ALERTING_OFFICER_ACTIONS
            || action in INSPECTIONS_OFFICER_ACTIONS || action in AVAILABILITY_OFFICER_ACTIONS
            || action in NERIS_OFFICER_ACTIONS))
  }

  lemma EveryNameIsDeployed(name: PolicyName)
    ensures name in POLICY_NAMES
  {
    assert POLICY_NAMES[0].AdminActions? && POLICY_NAMES[1].ViewConfig? && POLICY_NAMES[2].SelfService?;
    assert POLICY_NAMES[3].OfficerTier? && POLICY_NAMES[4].ApparatusMember? && POLICY_NAMES[5].ApparatusOfficer?;
    assert POLICY_NAMES[6].InventoryRead? && POLICY_NAMES[7].InventoryAdmin? && POLICY_NAMES[8].AlertingMember?;
    assert POLICY_NAMES[9].AlertingOfficer? && POLICY_NAMES[10].InspectionsMember? && POLICY_NAMES[11].InspectionsOfficer?;
    assert POLICY_NAMES[12].AvailabilityOfficer? && POLICY_NAMES[13].NerisMember? && POLICY_NAMES[14].NerisOfficer?;
    assert POLICY_NAMES[15].NerisAdmin?;
  }

  lemma LookupByName(groups: set<string>, action: string)
    ensures Lookup(Deployed(), groups, action) <==> exists name :: Holds(PolicyOf(name), groups, action)
  {
    var policies := Deployed();
    if Lookup(policies, groups, action) {
      var p :| p in policies && Holds(p, groups, action);
      var i :| 0 <= i < |policies| && policies[i] == p;
      assert p == PolicyOf(POLICY_NAMES[i]);
    }
    if name :| Holds(PolicyOf(name), groups, action) {
      EveryNameIsDeployed(name);
      var i :| 0 <= i < |POLICY_NAMES| && POLICY_NAMES[i] == name;
      assert policies[i] == PolicyOf(name);
    }
  }

  lemma HeldIsAnyHolds(name: PolicyName, groups: set<string>, action: string)
    ensures Holds(PolicyOf(name), groups, action) ==> AnyHolds(groups, action)
  {
    assert Holds(PolicyOf(name), groups, action) <==>
      action in PolicyOf(name).actions && AnyOf(PolicyOf(name).groups, groups);
    match name
    case _ =>
  }

  lemma AnyHoldsIsHeld(groups: set<string>, action: string) returns (name: PolicyName)
    requires AnyHolds(groups, action)
    ensures Holds(PolicyOf(name), groups, action)
  {
    if AnyOf(ROLE_GROUPS, groups) && EveryRoleListed(action) {
      name := if action in VIEW_ACTIONS then ViewConfig
        else if action in SELF_SERVICE_ACTIONS then SelfService
        else if action in APPARATUS_MEMBER_ACTIONS then ApparatusMember
        else if action in INVENTORY_READ_ACTIONS then InventoryRead
        else if action in ALERTING_MEMBER_ACTIONS then AlertingMember
        else if action in INSPECTIONS_MEMBER_ACTIONS then InspectionsMember
        else NerisMember;
      assert AnyOf(PolicyOf(name).groups, groups);
    } else if AnyOf(ADMIN_ONLY_GROUPS, groups) && (action in ADMIN_ONLY_ACTIONS || action in NERIS_ADMIN_ACTIONS) {
      name := if action in ADMIN_ONLY_ACTIONS then AdminActions else NerisAdmin;
      assert AnyOf(PolicyOf(name).groups, groups);
    } else if AnyOf(OFFICER_TIER_GROUPS, groups) && action in OFFICER_TIER_ACTIONS {
      name := OfficerTier;
      assert AnyOf(PolicyOf(name).groups, groups);
    } else if AnyOf(APPARATUS_OFFICER_GROUPS, groups) && action in APPARATUS_OFFICER_ACTIONS {
      name := ApparatusOfficer;
      assert AnyOf(PolicyOf(name).groups, groups);
    } else {
      name := if action in INVENTORY_ADMIN_ACTIONS then InventoryAdmin
        else if action in ALERTING_OFFICER_ACTIONS then AlertingOfficer
        else if action in INSPECTIONS_OFFICER_ACTIONS then InspectionsOfficer
        else if action in AVAILABILITY_OFFICER_ACTIONS then AvailabilityOfficer
        else NerisOfficer;
      assert AnyOf(PolicyOf(name).groups, groups);
    }
  }

  lemma LookupIsAnyHolds(groups: set<string>, action: string)
    ensures Lookup(Deployed(), groups, action) <==> AnyHolds(groups, action)
  {
    LookupByName(groups, action);
    forall name | Holds(PolicyOf(name), groups, action) ensures AnyHolds(groups, action) {
      HeldIsAnyHolds(name, groups, action);
    }
    if AnyHolds(groups, action) {
      var name := AnyHoldsIsHeld(groups, action);
    }
  }

  lemma LookupIsTiers(groups: set<string>, action: string)
    ensures Lookup(Deployed(), groups, action) <==> InTier(TIERS, groups, action)
  {
    LookupIsAnyHolds(groups, action);
    TierGroups(groups);
    EveryRoleActions(action);
    OfficerActions(action);
    OtherTierActions(action);
    assert InTier(TIERS, groups, action) <==>
      exists i :: 0 <= i < 5 && action in TIERS[i].actions && TIERS[i].groups * groups != {};
    assert TIERS[0] == EVERY_ROLE && TIERS[1] == CHIEF_ADMIN && TIERS[2] == OFFICER_TRAINING
        && TIERS[3] == OFFICER && TIERS[4] == APPARATUS_OFFICER;
  }

  lemma DeployedIsPrintable()
    ensures Printable(Deployed())
  {
    forall p | p in Deployed() ensures p.groups != [] && AllPlain(p.groups) && AllPlain(p.actions) {
      var i :| 0 <= i < |Deployed()| && Deployed()[i] == p;
      PolicyIsPlain(POLICY_NAMES[i]);
    }
  }

  lemma PolicyIsPlain(name: PolicyName)
    ensures var p := PolicyOf(name); p.groups != [] && AllPlain(p.groups) && AllPlain(p.actions)
  {
  }

  /** The deployed statements grant exactly what the tiers say, to every group set of the pool and
      for every action, known or not. */
  lemma DeployedDecisionIsTiers(pool: string, groups: set<string>, action: string)
    requires Plain(pool)
    ensures Decision(Printed(pool, Deployed()), TokenGroups(pool, groups), action) <==> InTier(TIERS, groups, action)
  {
    DeployedIsPrintable();
    DecisionIsLookup(pool, Deployed(), groups, action);
    LookupIsTiers(groups, action);
  }

  lemma ChiefInEveryTier(t: Tier)
    requires t in TIERS
    ensures "CHIEF" in t.groups
  {
    assert t == TIERS[0] || t == TIERS[1] || t == TIERS[2] || t == TIERS[3] || t == TIERS[4];
  }

  /** Whatever some groups may do, the chief may do alone. */
  lemma ChiefMayDoIt(pool: string, groups: set<string>, action: string)
    requires Plain(pool)
    requires Decision(Printed(pool, Deployed()), TokenGroups(pool, groups), action)
    ensures Decision(Printed(pool, Deployed()), TokenGroups(pool, {"CHIEF"}), action)
  {
    DeployedDecisionIsTiers(pool, groups, action);
    DeployedDecisionIsTiers(pool, {"CHIEF"}, action);
    var t :| t in TIERS && action in t.actions && t.groups * groups != {};
    ChiefInEveryTier(t);
    assert "CHIEF" in t.groups * {"CHIEF"};
  }
}
