// The tables of a backup (src/db/schema.sql and the column and order lists of src/db/backup.ts).
module BackupSchema {
  type Column = string

  datatype Value = Null | Number(n: int) | Text(s: string)

  type Row = map<Column, Value>

  datatype Table =
    | Contracts | ChannelAccounts | ContractGroups | ContractEntries | ExtensionPolicies | AlertConfigs
    | ResourceAlertConfigs | CostDailySnapshots | Budgets | ContractBudgets | ResourceUsageLogs
    | ContractGroupMembers | AlertsFired | ExtensionHistory | StateSnapshots | StateChanges | ResourceAlertsFired

  // Tables a backup leaves out; each row belongs to a row of an exported table and is deleted with it.
  datatype SideTable = EntryTypePolicies | AlertConfigTargets | TtlSamples | SharedBudgetPoolContracts | GuardPolicyHistory

  const PAGE_SIZE := 1000
  const PAGED_TABLES: set<Table> := {StateSnapshots, StateChanges, ResourceUsageLogs}

  const EXPORT_TABLES: seq<Table> :=
    [ Contracts, ChannelAccounts, ContractGroups, ContractEntries, ExtensionPolicies, AlertConfigs,
      ResourceAlertConfigs, CostDailySnapshots, Budgets, ContractBudgets, ResourceUsageLogs,
      ContractGroupMembers, AlertsFired, ExtensionHistory, StateSnapshots, StateChanges, ResourceAlertsFired ]

  const CLEAR_TABLES: seq<Table> :=
    [ ResourceAlertsFired, StateChanges, StateSnapshots, ExtensionHistory, AlertsFired, ContractGroupMembers,
      ResourceUsageLogs, ContractBudgets, Budgets, CostDailySnapshots, ResourceAlertConfigs, AlertConfigs,
      ExtensionPolicies, ContractEntries, ContractGroups, ChannelAccounts, Contracts ]

  // TABLE_COLUMNS
  function Columns(t: Table): seq<Column> {
    match t
    case Contracts =>
      ["id", "name", "network", "wasm_hash", "tags", "poll_interval_seconds", "active", "registered_at",
       "last_checked_ledger", "last_introspected_at"]
    case ChannelAccounts =>
      ["id", "public_key", "keypair_source", "label", "network", "funded", "balance_xlm", "balance_checked_at",
       "created_at"]
    case ContractGroups => ["id", "name", "created_at"]
    case ContractEntries =>
      ["id", "contract_id", "entry_key_xdr", "entry_type", "label", "live_until_ledger", "last_modified_ledger",
       "discovery_source", "first_seen_at", "last_checked_at"]
    case ExtensionPolicies =>
      ["id", "contract_id", "enabled", "target_ttl_ledgers", "extend_when_below_ledgers", "keypair_public",
       "keypair_source", "created_at"]
    case AlertConfigs =>
      ["id", "contract_id", "channel_type", "channel_target", "threshold_ledgers", "webhook_secret",
       "quiet_hours_start", "quiet_hours_end", "quiet_hours_timezone", "enabled", "created_at"]
    case ResourceAlertConfigs =>
      ["id", "contract_id", "channel_type", "channel_target", "cpu_limit", "mem_limit", "webhook_secret", "created_at"]
    case CostDailySnapshots =>
      ["id", "contract_id", "snapshot_date", "total_extensions", "total_cost_xlm", "instance_extensions",
       "instance_cost_xlm", "wasm_extensions", "wasm_cost_xlm", "persistent_extensions", "persistent_cost_xlm",
       "temporary_extensions", "temporary_cost_xlm", "created_at"]
    case Budgets => ["id", "contract_id", "billing_cycle", "limit_xlm", "spent_xlm"]
    case ContractBudgets => ["id", "contract_id", "monthly_limit_xlm", "created_at", "updated_at"]
    case ResourceUsageLogs =>
      ["id", "contract_id", "cpu_insns", "mem_bytes", "fee_instructions", "fee_read_ledger_entries",
       "fee_write_ledger_entries", "fee_read_bytes", "fee_write_bytes", "fee_transaction_size",
       "fee_historical_ledger", "fee_rent_ledger", "fee_refundable", "recorded_at"]
    case ContractGroupMembers => ["id", "group_id", "contract_id"]
    case AlertsFired =>
      ["id", "alert_config_id", "contract_entry_id", "fired_at_ledger", "fired_at", "ttl_at_fire", "resolved",
       "resolved_at", "delivered", "delivered_at", "retry_count"]
    case ExtensionHistory =>
      ["id", "contract_id", "contract_entry_id", "old_ttl_ledgers", "new_ttl_ledgers", "tx_hash", "cost_xlm",
       "cpu_insns", "mem_bytes", "is_anomaly", "executed_at_ledger", "executed_at"]
    case StateSnapshots => ["id", "contract_entry_id", "snapshot_ledger", "value_hash", "value_xdr", "created_at"]
    case StateChanges =>
      ["id", "contract_entry_id", "old_snapshot_id", "new_snapshot_id", "diff_type", "diff_json",
       "detected_at_ledger", "created_at"]
    case ResourceAlertsFired =>
      ["id", "resource_alert_config_id", "resource_type", "usage", "limit", "usage_percent", "fired_at_ledger",
       "fired_at", "delivered", "delivered_at", "retry_count", "resolved", "resolved_at"]
  }

  // The tables' columns, by the schema and its migrations.
  function SchemaColumns(t: Table): seq<Column> {
    match t
    case Contracts =>
      ["id", "name", "network", "wasm_hash", "tags", "poll_interval_seconds", "active", "registered_at",
       "last_checked_ledger", "last_introspected_at"]
    case ChannelAccounts =>
      ["id", "public_key", "keypair_source", "label", "network", "funded", "balance_xlm", "balance_checked_at",
       "created_at"]
    case ContractGroups => ["id", "name", "poll_interval_seconds", "created_at"]
    case ContractEntries =>
      ["id", "contract_id", "entry_key_xdr", "entry_type", "label", "live_until_ledger", "last_modified_ledger",
       "discovery_source", "first_seen_at", "last_checked_at"]
    case ExtensionPolicies =>
      ["id", "contract_id", "enabled", "target_ttl_ledgers", "extend_when_below_ledgers", "keypair_public",
       "keypair_source", "max_fee_stroops", "created_at", "predictive_cycles"]
    case AlertConfigs =>
      ["id", "contract_id", "channel_type", "channel_target", "threshold_ledgers", "webhook_secret",
       "quiet_hours_start", "quiet_hours_end", "quiet_hours_timezone", "enabled", "created_at"]
    case ResourceAlertConfigs =>
      ["id", "contract_id", "channel_type", "channel_target", "cpu_limit", "mem_limit", "webhook_secret", "created_at"]
    case CostDailySnapshots =>
      ["id", "contract_id", "snapshot_date", "total_extensions", "total_cost_xlm", "instance_extensions",
       "instance_cost_xlm", "wasm_extensions", "wasm_cost_xlm", "persistent_extensions", "persistent_cost_xlm",
       "temporary_extensions", "temporary_cost_xlm", "created_at"]
    case Budgets => ["id", "contract_id", "billing_cycle", "limit_xlm", "spent_xlm"]
    case ContractBudgets => ["id", "contract_id", "monthly_limit_xlm", "created_at", "updated_at"]
    case ResourceUsageLogs =>
      ["id", "contract_id", "cpu_insns", "mem_bytes", "fee_instructions", "fee_read_ledger_entries",
       "fee_write_ledger_entries", "fee_read_bytes", "fee_write_bytes", "fee_transaction_size",
       "fee_historical_ledger", "fee_rent_ledger", "fee_refundable", "recorded_at"]
    case ContractGroupMembers => ["id", "group_id", "contract_id"]
    case AlertsFired =>
      ["id", "alert_config_id", "contract_entry_id", "fired_at_ledger", "fired_at", "ttl_at_fire", "resolved",
       "resolved_at", "delivered", "delivered_at", "retry_count", "channel_type", "channel_target"]
    case ExtensionHistory =>
      ["id", "contract_id", "contract_entry_id", "old_ttl_ledgers", "new_ttl_ledgers", "tx_hash", "cost_xlm",
       "cpu_insns", "mem_bytes", "is_anomaly", "executed_at_ledger", "executed_at"]
    case StateSnapshots => ["id", "contract_entry_id", "snapshot_ledger", "value_hash", "value_xdr", "created_at"]
    case StateChanges =>
      ["id", "contract_entry_id", "old_snapshot_id", "new_snapshot_id", "diff_type", "diff_json",
       "detected_at_ledger", "created_at"]
    case ResourceAlertsFired =>
      ["id", "resource_alert_config_id", "resource_type", "usage", "limit", "usage_percent", "fired_at_ledger",
       "fired_at", "delivered", "delivered_at", "retry_count", "resolved", "resolved_at"]
  }

  // The columns of the table that TABLE_COLUMNS does not list, with the values SQLite gives them.
  function Unlisted(t: Table): Row {
    match t
    case ContractGroups => map["poll_interval_seconds" := Null]
    case ExtensionPolicies => map["max_fee_stroops" := Null, "predictive_cycles" := Number(0)]
    case AlertsFired => map["channel_type" := Null, "channel_target" := Null]
    case _ => map[]
  }

  datatype ForeignKey = ForeignKey(column: Column, parent: Table, setNull: bool)

  function ForeignKeys(t: Table): seq<ForeignKey> {
    var toContract := ForeignKey("contract_id", Contracts, false);
    var toEntry := ForeignKey("contract_entry_id", ContractEntries, false);
    match t
    case Contracts => []
    case ChannelAccounts => []
    case ContractGroups => []
    case ContractGroupMembers => [ForeignKey("group_id", ContractGroups, false), toContract]
    case AlertsFired => [ForeignKey("alert_config_id", AlertConfigs, false), toEntry]
    case ExtensionHistory => [toContract, toEntry]
    case StateSnapshots => [toEntry]
    case StateChanges =>
      [toEntry, ForeignKey("old_snapshot_id", StateSnapshots, true), ForeignKey("new_snapshot_id", StateSnapshots, true)]
    case ResourceAlertsFired => [ForeignKey("resource_alert_config_id", ResourceAlertConfigs, false)]
    case _ => [toContract]
  }

  function SideParent(s: SideTable): Table {
    match s
    case AlertConfigTargets => AlertConfigs
    case TtlSamples => ContractEntries
    case _ => Contracts
  }

  // PRIMARY KEY and UNIQUE
  function UniqueKeys(t: Table): seq<seq<Column>> {
    match t
    case ChannelAccounts => [["id"], ["public_key"]]
    case ContractEntries => [["id"], ["contract_id", "entry_key_xdr"]]
    case ExtensionPolicies => [["id"], ["contract_id"]]
    case ResourceAlertConfigs => [["id"], ["contract_id", "channel_type", "channel_target"]]
    case CostDailySnapshots => [["id"], ["contract_id", "snapshot_date"]]
    case Budgets => [["id"], ["contract_id", "billing_cycle"]]
    case ContractBudgets => [["id"], ["contract_id"]]
    case ContractGroupMembers => [["id"], ["group_id", "contract_id"]]
    case _ => [["id"]]
  }

  function NotNull(t: Table): seq<Column> {
    match t
    case Contracts => ["network", "active"]
    case ChannelAccounts => ["public_key", "network", "funded", "created_at"]
    case ContractGroups => ["name", "created_at"]
    case ContractEntries => ["contract_id", "entry_key_xdr", "entry_type", "discovery_source", "first_seen_at"]
    case ExtensionPolicies =>
      ["contract_id", "enabled", "target_ttl_ledgers", "extend_when_below_ledgers", "created_at", "predictive_cycles"]
    case AlertConfigs => ["contract_id", "channel_type", "channel_target", "threshold_ledgers", "enabled", "created_at"]
    case ResourceAlertConfigs => ["contract_id", "channel_type", "channel_target", "cpu_limit", "mem_limit", "created_at"]
    case CostDailySnapshots =>
      ["contract_id", "snapshot_date", "total_extensions", "total_cost_xlm", "instance_extensions",
       "instance_cost_xlm", "wasm_extensions", "wasm_cost_xlm", "persistent_extensions", "persistent_cost_xlm",
       "temporary_extensions", "temporary_cost_xlm", "created_at"]
    case Budgets => ["contract_id", "billing_cycle", "limit_xlm", "spent_xlm"]
    case ContractBudgets => ["contract_id", "monthly_limit_xlm", "created_at", "updated_at"]
    case ResourceUsageLogs => ["contract_id", "cpu_insns", "mem_bytes", "recorded_at"]
    case ContractGroupMembers => ["group_id", "contract_id"]
    case AlertsFired =>
      ["alert_config_id", "contract_entry_id", "fired_at_ledger", "fired_at", "ttl_at_fire", "resolved", "delivered",
       "retry_count"]
    case ExtensionHistory =>
      ["contract_id", "contract_entry_id", "old_ttl_ledgers", "new_ttl_ledgers", "tx_hash", "is_anomaly",
       "executed_at_ledger", "executed_at"]
    case StateSnapshots => ["contract_entry_id", "snapshot_ledger", "value_hash", "value_xdr", "created_at"]
    case StateChanges => ["contract_entry_id", "diff_type", "diff_json", "detected_at_ledger", "created_at"]
    case ResourceAlertsFired =>
      ["resource_alert_config_id", "resource_type", "usage", "limit", "usage_percent", "fired_at", "delivered",
       "retry_count", "resolved"]
  }

  function Get(row: Row, c: Column): Value {
    if c in row then row[c] else Null
  }

  predicate OneOf(v: Value, allowed: set<string>) {
    v == Null || (v.Text? && v.s in allowed)
  }

  // CHECK
  predicate ChecksHold(t: Table, row: Row) {
    match t
    case ContractEntries =>
      && OneOf(Get(row, "entry_type"), {"instance", "wasm", "persistent", "temporary"})
      && OneOf(Get(row, "discovery_source"), {"deterministic", "manual", "instance_scan", "footprint", "introspection"})
    case AlertConfigs => Get(row, "channel_type") != Text("")
    case ResourceAlertConfigs => Get(row, "channel_type") != Text("")
    case StateChanges => OneOf(Get(row, "diff_type"), {"created", "updated", "deleted"})
    case ResourceAlertsFired => OneOf(Get(row, "resource_type"), {"cpu", "memory"})
    case _ => true
  }

  // ---------------------------------------------------------------- the orders

  function Rank(t: Table): (r: nat)
    ensures r < |EXPORT_TABLES|
  {
    match t
    case Contracts => 0
    case ChannelAccounts => 1
    case ContractGroups => 2
    case ContractEntries => 3
    case ExtensionPolicies => 4
    case AlertConfigs => 5
    case ResourceAlertConfigs => 6
    case CostDailySnapshots => 7
    case Budgets => 8
    case ContractBudgets => 9
    case ResourceUsageLogs => 10
    case ContractGroupMembers => 11
    case AlertsFired => 12
    case ExtensionHistory => 13
    case StateSnapshots => 14
    case StateChanges => 15
    case ResourceAlertsFired => 16
  }

  // Each table is exported once and cleared once, in opposite orders.
  lemma OrdersAreOpposite(t: Table, i: nat)
    ensures |EXPORT_TABLES| == |CLEAR_TABLES|
    ensures i < |EXPORT_TABLES| ==> Rank(EXPORT_TABLES[i]) == i
    ensures i < |EXPORT_TABLES| ==> CLEAR_TABLES[i] == EXPORT_TABLES[|EXPORT_TABLES| - 1 - i]
    ensures EXPORT_TABLES[Rank(t)] == t
  {
  }

  // A row's parents are inserted before it and deleted after it.
  lemma ParentsComeFirst(t: Table, fk: ForeignKey)
    requires fk in ForeignKeys(t)
    ensures Rank(fk.parent) < Rank(t)
  {
  }

  // What the constraints look at is exported, or has a default that meets them.
  lemma ForeignKeysAreListed(t: Table)
    ensures forall fk :: fk in ForeignKeys(t) ==> fk.column in Columns(t)
  {
  }

  lemma NotNullIsCovered(t: Table, c: Column)
    requires c in NotNull(t)
    ensures c in Columns(t) || Get(Unlisted(t), c) != Null
  {
    hide NotNull, Columns, Unlisted, Rank;
    if Rank(t) < 8 {
      EarlyNotNull(t, c);
    } else {
      LateNotNull(t, c);
    }
  }

  lemma EarlyNotNull(t: Table, c: Column)
    requires c in NotNull(t) && Rank(t) < 8
    ensures c in Columns(t) || Get(Unlisted(t), c) != Null
  {
  }

  lemma LateNotNull(t: Table, c: Column)
    requires c in NotNull(t) && Rank(t) >= 8
    ensures c in Columns(t)
  {
  }

  // A backup carries every column of the schema but the unlisted ones.
  lemma BackupCarriesTheSchema(t: Table, c: Column)
    ensures c in SchemaColumns(t) <==> c in Columns(t) || c in Unlisted(t)
  {
    hide SchemaColumns, Columns, Rank;
    if t.ContractGroups? || t.ExtensionPolicies? || t.AlertsFired? {
      UnlistedInSchema(t);
    } else if Rank(t) < 9 {
      EarlyColumns(t);
    } else {
      LateColumns(t);
    }
  }

  lemma UnlistedInSchema(t: Table)
    requires t.ContractGroups? || t.ExtensionPolicies? || t.AlertsFired?
    ensures forall c :: c in SchemaColumns(t) <==> c in Columns(t) || c in Unlisted(t)
  {
    match t
    case ContractGroups =>
      assert SchemaColumns(t) == Columns(t)[..2] + ["poll_interval_seconds"] + Columns(t)[2..];
      hide SchemaColumns, Columns;
    case ExtensionPolicies =>
      assert SchemaColumns(t) == Columns(t)[..7] + ["max_fee_stroops"] + Columns(t)[7..] + ["predictive_cycles"];
      hide SchemaColumns, Columns;
    case AlertsFired =>
      assert SchemaColumns(t) == Columns(t) + ["channel_type", "channel_target"];
      hide SchemaColumns, Columns;
  }

  lemma EarlyColumns(t: Table)
    requires Rank(t) < 9 && !t.ContractGroups? && !t.ExtensionPolicies?
    ensures SchemaColumns(t) == Columns(t) && Unlisted(t) == map[]
  {
  }

  lemma LateColumns(t: Table)
    requires Rank(t) >= 9 && !t.AlertsFired?
    ensures SchemaColumns(t) == Columns(t) && Unlisted(t) == map[]
  {
  }

  lemma UnlistedAreNotListed(t: Table, c: Column)
    requires c in Unlisted(t)
    ensures c !in Columns(t)
  {
  }

  lemma IdIsAKey(t: Table)
    ensures 1 <= |UniqueKeys(t)| <= 2 && UniqueKeys(t)[0] == ["id"]
  {
  }

  lemma IdIsListed(t: Table)
    ensures |Columns(t)| > 0 && Columns(t)[0] == "id"
  {
  }

  lemma KeysAreListed(t: Table)
    ensures forall key, c :: key in UniqueKeys(t) && c in key ==> c in Columns(t)
    ensures ["id"] in UniqueKeys(t) && "id" in Columns(t)
  {
    hide UniqueKeys, Columns;
    IdIsAKey(t);
    IdIsListed(t);
    if |UniqueKeys(t)| > 1 {
      SecondKeyIsListed(t);
    }
  }

  lemma SecondKeyIsListed(t: Table)
    requires |UniqueKeys(t)| > 1
    ensures forall c :: c in UniqueKeys(t)[1] ==> c in Columns(t)
  {
  }
}
