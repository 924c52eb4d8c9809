/**
 What is copied to the cloud, in what order, and how a table says what is new.
*/
module SyncTables {

  datatype TableSpec = TableSpec(name: string, byId: bool, selfReferencing: bool)

  const SKUS := 0
  const CUSTOMERS := 1
  const CONTAINERS := 2
  const CONTENTS := 3
  const SESSIONS := 4
  const CYCLE_COUNTS := 5
  const CYCLE_ITEMS := 6
  const MOVEMENTS := 7
  const ANOMALIES := 8
  const GATE_EVENTS := 10
  const READS_RAW := 11
  const TABLES: nat := 12

  /** Parents before children: the worker walks this list in order. */
  const SYNCED_TABLES: seq<TableSpec> := [
    TableSpec("skus", false, false),
    TableSpec("customers", false, false),
    TableSpec("containers", false, true),
    TableSpec("container_contents", false, false),
    TableSpec("dispatch_sessions", false, false),
    TableSpec("cycle_counts", false, false),
    TableSpec("cycle_count_items", false, false),
    TableSpec("movements", true, false),
    TableSpec("anomalies", false, false),
    TableSpec("observations", false, false),
    TableSpec("gate_events", true, false),
    TableSpec("reads_raw", true, false)
  ]

  /** The tables a row of this table may point at, other than its own. */
  function ForeignKeys(t: nat): set<nat> {
    if t == CONTENTS then {CONTAINERS, SKUS}
    else if t == SESSIONS then {CUSTOMERS}
    else if t == CYCLE_ITEMS then {CYCLE_COUNTS}
    else if t == MOVEMENTS then {CONTAINERS, SESSIONS}
    else if t == ANOMALIES then {CONTAINERS}
    else {}
  }

  /** The schema's names for the foreign keys, against the position of each table in the list. */
  lemma ReferencedTablesComeFirst(t: nat)
    requires t < TABLES
    ensures |SYNCED_TABLES| == TABLES
    ensures forall u :: u in ForeignKeys(t) ==> 0 <= u < t
    ensures forall u :: 0 <= u < TABLES ==>
              (u in ForeignKeys(t) <==>
                 (SYNCED_TABLES[t].name, SYNCED_TABLES[u].name) in
                   {("container_contents", "containers"), ("container_contents", "skus"),
                    ("dispatch_sessions", "customers"), ("cycle_count_items", "cycle_counts"),
                    ("movements", "containers"), ("movements", "dispatch_sessions"), ("anomalies", "containers")})
    ensures SYNCED_TABLES[t].selfReferencing <==> t == CONTAINERS
    ensures SYNCED_TABLES[t].selfReferencing ==> !SYNCED_TABLES[t].byId
    ensures SYNCED_TABLES[t].byId <==> t in {MOVEMENTS, GATE_EVENTS, READS_RAW}
  {
  }
}
