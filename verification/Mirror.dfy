/** The mirror of every chain's tables in global tables, kept by insert triggers. */
module Mirror {
  import Tables
  import opened ChangeDetection
  import opened Triggers

  // ================================================================ column definitions

  /** No rename is the empty name. */
  datatype ColumnDef = ColumnDef(name: string, skip: bool, rename: string)

  function GetCrossChainName(c: ColumnDef): string {
    if c.skip then "" else if c.rename != "" then c.rename else c.name
  }

  /** The definitions with a global column, in order. */
  function Synced(defs: seq<ColumnDef>): seq<ColumnDef> {
    if defs == [] then []
    else
      var last := defs[|defs| - 1];
      Synced(defs[..|defs| - 1]) + if GetCrossChainName(last) != "" then [last] else []
  }

  function Names(defs: seq<ColumnDef>): (names: seq<string>)
    ensures |names| == |defs| && forall i :: 0 <= i < |defs| ==> names[i] == GetCrossChainName(defs[i])
  {
    seq(|defs|, i requires 0 <= i < |defs| => GetCrossChainName(defs[i]))
  }

  method GetCrossChainColumnNames(defs: seq<ColumnDef>) returns (names: seq<string>)
    ensures names == Names(Synced(defs))
  {
    names := [];
    for i := 0 to |defs|
      invariant names == Names(Synced(defs[..i]))
    {
      assert defs[..i + 1][..i] == defs[..i];
      if GetCrossChainName(defs[i]) != "" {
        names := names + [GetCrossChainName(defs[i])];
      }
    }
    assert defs[..|defs|] == defs;
  }

  method FilterCrossChainColumns(defs: seq<ColumnDef>) returns (kept: seq<ColumnDef>)
    ensures (forall d :: d in defs && !d.skip ==> d.name != "" || d.rename != "") ==> kept == Synced(defs)
    ensures forall d :: d in kept <==> d in defs && !d.skip
  {
    kept := [];
    for i := 0 to |defs|
      invariant (forall d :: d in defs && !d.skip ==> d.name != "" || d.rename != "") ==> kept == Synced(defs[..i])
      invariant forall d :: d in kept <==> d in defs[..i] && !d.skip
    {
      assert defs[..i + 1][..i] == defs[..i] && defs[i] in defs;
      assert forall d :: d in defs[..i + 1] <==> d in defs[..i] || d == defs[i];
      if !defs[i].skip {
        kept := kept + [defs[i]];
      }
    }
    assert defs[..|defs|] == defs;
  }

  /** No two global columns have one name. */
  ghost predicate DistinctNames(defs: seq<ColumnDef>) {
    var s := Synced(defs);
    forall i, j :: 0 <= i < j < |s| ==> GetCrossChainName(s[i]) != GetCrossChainName(s[j])
  }

  // ================================================================ the trigger's columns

  /** Per global name, the name of the last definition that maps to it. */
  function NameMap(defs: seq<ColumnDef>): map<string, string> {
    if defs == [] then map[]
    else
      var rest, last := NameMap(defs[..|defs| - 1]), defs[|defs| - 1];
      if last.skip then rest else rest[GetCrossChainName(last) := last.name]
  }

  /** The chain's column that a global column is filled from; the same name where none is known. */
  function SourceOf(names: map<string, string>, col: string): string {
    if col in names && names[col] != "" then names[col] else col
  }

  method BuildTriggerColumns(defs: seq<ColumnDef>, columnNames: seq<string>) returns (sources: seq<string>)
    ensures |sources| == |columnNames|
    ensures forall i :: 0 <= i < |sources| ==> sources[i] == SourceOf(NameMap(defs), columnNames[i])
  {
    var names: map<string, string> := map[];
    for i := 0 to |defs|
      invariant names == NameMap(defs[..i])
    {
      assert defs[..i + 1][..i] == defs[..i];
      if defs[i].skip {
        continue;
      }
      names := names[GetCrossChainName(defs[i]) := defs[i].name];
    }
    assert defs[..|defs|] == defs;
    sources := [];
    for i := 0 to |columnNames|
      invariant |sources| == i && forall j :: 0 <= j < i ==> sources[j] == SourceOf(names, columnNames[j])
    {
      var perChainName := if columnNames[i] in names then names[columnNames[i]] else "";
      if perChainName == "" {
        perChainName := columnNames[i];
      }
      sources := sources + [perChainName];
    }
  }

  /** A definition's own column; without a name, the one its global column is called. */
  function OwnColumn(d: ColumnDef): string {
    if d.name == "" then GetCrossChainName(d) else d.name
  }

  /** The j-th definition is the last with that global name. */
  ghost predicate IsLast(s: seq<ColumnDef>, j: nat, col: string) {
    j < |s| && GetCrossChainName(s[j]) == col && forall k :: j < k < |s| ==> GetCrossChainName(s[k]) != col
  }

  lemma {:induction false} NameMapIsLast(defs: seq<ColumnDef>, j: nat, col: string)
    requires col != "" && IsLast(Synced(defs), j, col)
    ensures col in NameMap(defs) && NameMap(defs)[col] == Synced(defs)[j].name
  {
    var rest, last := defs[..|defs| - 1], defs[|defs| - 1];
    if GetCrossChainName(last) != "" && j == |Synced(rest)| {
      assert Synced(defs)[j] == last;
    } else {
      assert Synced(defs)[j] == Synced(rest)[j];
      assert GetCrossChainName(last) != "" ==> Synced(defs)[|Synced(rest)|] == last;
      assert forall k :: 0 <= k < |Synced(rest)| ==> Synced(rest)[k] == Synced(defs)[k];
      NameMapIsLast(rest, j, col);
    }
  }

  lemma {:induction false} LastExists(s: seq<ColumnDef>, i: nat) returns (j: nat)
    requires i < |s|
    ensures i <= j && IsLast(s, j, GetCrossChainName(s[i]))
    decreases |s| - i
  {
    if k :| i < k < |s| && GetCrossChainName(s[k]) == GetCrossChainName(s[i]) {
      j := LastExists(s, k);
    } else {
      j := i;
    }
  }

  lemma {:induction false} SyncedHaveNames(defs: seq<ColumnDef>)
    ensures forall d :: d in Synced(defs) <==> GetCrossChainName(d) != "" && d in defs
  {
    if defs != [] {
      var n := |defs| - 1;
      SyncedHaveNames(defs[..n]);
      assert forall d :: d in defs <==> d in defs[..n] || d == defs[n];
    }
  }

  function OwnColumns(defs: seq<ColumnDef>): (names: seq<string>)
    ensures |names| == |defs| && forall i :: 0 <= i < |defs| ==> names[i] == OwnColumn(defs[i])
  {
    seq(|defs|, i requires 0 <= i < |defs| => OwnColumn(defs[i]))
  }

  /** A global column is filled from the own column of the last synced definition with its name. */
  lemma SourceIsLast(defs: seq<ColumnDef>, j: nat, col: string)
    requires IsLast(Synced(defs), j, col)
    ensures SourceOf(NameMap(defs), col) == OwnColumn(Synced(defs)[j])
  {
    SyncedHaveNames(defs);
    assert Synced(defs)[j] in Synced(defs);
    NameMapIsLast(defs, j, col);
  }

  /** Synced definitions with one global name have one own column. */
  ghost predicate NamesDecideColumns(defs: seq<ColumnDef>) {
    var s := Synced(defs);
    forall i, j :: 0 <= i < j < |s| && GetCrossChainName(s[i]) == GetCrossChainName(s[j]) ==> OwnColumn(s[i]) == OwnColumn(s[j])
  }

  /** The i-th synced definition feeds its global column from its own one. */
  ghost predicate FeedsOwn(defs: seq<ColumnDef>, i: nat)
    requires i < |Synced(defs)|
  {
    SourceOf(NameMap(defs), Names(Synced(defs))[i]) == OwnColumn(Synced(defs)[i])
  }

  lemma FeedsOwnIfDecided(defs: seq<ColumnDef>, i: nat)
    requires NamesDecideColumns(defs) && i < |Synced(defs)|
    ensures FeedsOwn(defs, i)
  {
    var s := Synced(defs);
    var j := LastExists(s, i);
    SourceIsLast(defs, j, GetCrossChainName(s[i]));
  }

  /** All of them do, exactly when no global name stands for two columns. */
  lemma SourcesAreOwnExactly(defs: seq<ColumnDef>)
    ensures (forall i :: 0 <= i < |Synced(defs)| ==> FeedsOwn(defs, i)) <==> NamesDecideColumns(defs)
  {
    var s := Synced(defs);
    if NamesDecideColumns(defs) {
      forall i | 0 <= i < |s| ensures FeedsOwn(defs, i) {
        FeedsOwnIfDecided(defs, i);
      }
    } else {
      var i, j :| 0 <= i < j < |s| && GetCrossChainName(s[i]) == GetCrossChainName(s[j]) && OwnColumn(s[i]) != OwnColumn(s[j]);
      assert !(FeedsOwn(defs, i) && FeedsOwn(defs, j));
    }
  }

  /** The i-th source column is the preimage of the i-th global name, for any definitions with distinct global names. */
  lemma SourceIsPreimage(defs: seq<ColumnDef>, i: nat)
    requires DistinctNames(defs) && i < |Synced(defs)|
    ensures SourceOf(NameMap(defs), Names(Synced(defs))[i]) == OwnColumn(Synced(defs)[i])
  {
    SourceIsLast(defs, i, GetCrossChainName(Synced(defs)[i]));
  }

  /** The trigger's source columns are the synced definitions' own columns, one by one. */
  lemma TriggerColumnsAreOwn(defs: seq<ColumnDef>, sources: seq<string>)
    requires DistinctNames(defs) && |sources| == |Synced(defs)|
    requires forall i :: 0 <= i < |sources| ==> sources[i] == SourceOf(NameMap(defs), Names(Synced(defs))[i])
    ensures sources == OwnColumns(Synced(defs))
  {
    forall i | 0 <= i < |sources| ensures sources[i] == OwnColumns(Synced(defs))[i] {
      SourceIsPreimage(defs, i);
    }
  }

  // ================================================================ rows

  /** A row by column name. */
  type Row<V> = map<string, V>

  /** The values that the trigger inserts: each target column from its source column. */
  function ProjectRow<V>(targets: seq<string>, sources: seq<string>, row: Row<V>): Row<V>
    requires |targets| == |sources| && forall s :: s in sources ==> s in row
  {
    if targets == [] then map[]
    else
      var n := |targets| - 1;
      ProjectRow(targets[..n], sources[..n], row)[targets[n] := row[sources[n]]]
  }

  lemma {:induction false} ProjectRowAt<V>(targets: seq<string>, sources: seq<string>, row: Row<V>)
    requires |targets| == |sources| && forall s :: s in sources ==> s in row
    requires forall i, j :: 0 <= i < j < |targets| ==> targets[i] != targets[j]
    ensures forall t :: t in ProjectRow(targets, sources, row) <==> t in targets
    ensures forall i :: 0 <= i < |targets| ==> targets[i] in ProjectRow(targets, sources, row) &&
                                               ProjectRow(targets, sources, row)[targets[i]] == row[sources[i]]
  {
    if targets != [] {
      var n := |targets| - 1;
      ProjectRowAt(targets[..n], sources[..n], row);
      ProjectRowMore(targets, sources, row, ProjectRow(targets[..n], sources[..n], row), n);
    }
  }

  lemma ProjectRowMore<V>(targets: seq<string>, sources: seq<string>, row: Row<V>, fewer: Row<V>, n: nat)
    requires |targets| == |sources| == n + 1 && forall s :: s in sources ==> s in row
    requires forall i, j :: 0 <= i < j < |targets| ==> targets[i] != targets[j]
    requires forall t :: t in fewer <==> t in targets[..n]
    requires forall i :: 0 <= i < n ==> targets[..n][i] in fewer && fewer[targets[..n][i]] == row[sources[..n][i]]
    ensures var more := fewer[targets[n] := row[sources[n]]];
            && (forall t :: t in more <==> t in targets)
            && forall i :: 0 <= i < |targets| ==> targets[i] in more && more[targets[i]] == row[sources[i]]
  {
    assert forall t :: t in targets <==> t in targets[..n] || t == targets[n];
    forall i | 0 <= i < n ensures targets[i] in fewer && fewer[targets[i]] == row[sources[i]] {
      assert targets[..n][i] == targets[i] && sources[..n][i] == sources[i];
    }
  }

  /** The row has a value for every synced column. */
  predicate HasColumns<V>(defs: seq<ColumnDef>, row: Row<V>) {
    forall s :: s in OwnColumns(Synced(defs)) ==> s in row
  }

  /** A chain's row as the global table holds it, without the chain id. */
  function RenameRow<V>(defs: seq<ColumnDef>, row: Row<V>): Row<V> {
    if HasColumns(defs, row) then ProjectRow(Names(Synced(defs)), OwnColumns(Synced(defs)), row) else row
  }

  /** The renamed row holds, under each global name, what the row holds in the definition's own column. */
  ghost predicate HoldsRenamed<V>(d: ColumnDef, row: Row<V>, renamed: Row<V>) {
    OwnColumn(d) in row && GetCrossChainName(d) in renamed && renamed[GetCrossChainName(d)] == row[OwnColumn(d)]
  }

  lemma RenamedAt<V>(defs: seq<ColumnDef>, row: Row<V>, i: nat)
    requires DistinctNames(defs) && HasColumns(defs, row) && i < |Synced(defs)|
    ensures HoldsRenamed(Synced(defs)[i], row, RenameRow(defs, row))
  {
    var s := Synced(defs);
    var names, own := Names(s), OwnColumns(s);
    assert own[i] in own;
    ProjectRowAt(names, own, row);
    assert names[i] in ProjectRow(names, own, row);
  }

  lemma SyncedRenamed<V>(defs: seq<ColumnDef>, row: Row<V>)
    requires DistinctNames(defs) && HasColumns(defs, row)
    ensures forall t :: t in RenameRow(defs, row) <==> t in Names(Synced(defs))
    ensures forall d :: d in Synced(defs) ==> HoldsRenamed(d, row, RenameRow(defs, row))
  {
    ProjectRowAt(Names(Synced(defs)), OwnColumns(Synced(defs)), row);
    forall i | 0 <= i < |Synced(defs)|
      ensures HoldsRenamed(Synced(defs)[i], row, RenameRow(defs, row))
    {
      RenamedAt(defs, row, i);
    }
  }

  /** A column that is not skipped goes by its new name if it has one and by its own otherwise; it is filled from the column of its own name. */
  predicate GoesBy(d: ColumnDef, global: string, own: string) {
    && !d.skip && global != "" && global == (if d.rename != "" then d.rename else d.name)
    && own == if d.name != "" then d.name else d.rename
  }

  /** The renamed row has exactly the columns that are not skipped, under their global names, with what the row holds under their own. */
  lemma RenameRowMeans<V>(defs: seq<ColumnDef>, row: Row<V>)
    requires DistinctNames(defs) && HasColumns(defs, row)
    ensures forall t :: t in RenameRow(defs, row) <==> exists d, own :: d in defs && GoesBy(d, t, own)
    ensures forall d, t, own :: d in defs && GoesBy(d, t, own) ==> own in row && t in RenameRow(defs, row) && RenameRow(defs, row)[t] == row[own]
  {
    SyncedRenamed(defs, row);
    SyncedHaveNames(defs);
    forall d ensures GetCrossChainName(d) != "" <==> GoesBy(d, GetCrossChainName(d), OwnColumn(d)) {
    }
    forall d, t, own | d in defs && GoesBy(d, t, own) ensures own in row && t in RenameRow(defs, row) && RenameRow(defs, row)[t] == row[own] {
      assert t == GetCrossChainName(d) && own == OwnColumn(d) && HoldsRenamed(d, row, RenameRow(defs, row));
    }
    forall t | t in RenameRow(defs, row) ensures exists d, own :: d in defs && GoesBy(d, t, own) {
      var i :| 0 <= i < |Synced(defs)| && Names(Synced(defs))[i] == t;
      var d := Synced(defs)[i];
      assert d in Synced(defs) && GoesBy(d, t, OwnColumn(d));
    }
  }

  predicate HasAll<V>(columns: seq<string>, row: Row<V>) {
    forall i :: 0 <= i < |columns| ==> columns[i] in row
  }

  /** Values of the key columns. */
  function KeyOf<V>(columns: seq<string>, row: Row<V>): (key: seq<V>)
    requires HasAll(columns, row)
    ensures |key| == |columns| && forall i :: 0 <= i < |key| ==> key[i] == row[columns[i]]
  {
    seq(|columns|, i requires 0 <= i < |columns| && columns[i] in row => row[columns[i]])
  }

  /** The global key columns, beside the chain id, hold what the chain's key columns hold. */
  lemma SameKey<V>(defs: seq<ColumnDef>, key: seq<ColumnDef>, row: Row<V>)
    requires DistinctNames(defs) && HasColumns(defs, row) && forall d :: d in key ==> d in Synced(defs)
    ensures HasAll(Names(key), RenameRow(defs, row)) && HasAll(OwnColumns(key), row)
    ensures KeyOf(Names(key), RenameRow(defs, row)) == KeyOf(OwnColumns(key), row)
  {
    SyncedRenamed(defs, row);
    forall i | 0 <= i < |key| ensures HoldsRenamed(key[i], row, RenameRow(defs, row)) {
      assert key[i] in key;
    }
  }

  // ================================================================ tables

  type Key<V> = seq<V>

  type Table<V(==)> = map<Key<V>, Row<V>>

  /** Rows by chain id and key. */
  type GlobalTable<V(==)> = map<(nat, Key<V>), Row<V>>

  /** The rows of a global table that are tagged with one chain. */
  function Tagged<V(==)>(global: GlobalTable<V>, c: nat): Table<V> {
    map r | r in global && r.0 == c :: r.1 := global[r]
  }

  /** The rows of the other chains; what DELETE WHERE chain_id = c leaves. */
  function WithoutChain<V(==)>(global: GlobalTable<V>, c: nat): GlobalTable<V> {
    map r | r in global && r.0 != c :: global[r]
  }

  function RenameTable<V(==)>(defs: seq<ColumnDef>, t: Table<V>): Table<V> {
    map k | k in t :: RenameRow(defs, t[k])
  }

  function RenameGlobal<V(==)>(defs: seq<ColumnDef>, t: GlobalTable<V>): GlobalTable<V> {
    map r | r in t :: RenameRow(defs, t[r])
  }

  lemma TaggedRenamed<V(!new)>(defs: seq<ColumnDef>, t: GlobalTable<V>, c: nat)
    ensures Tagged(RenameGlobal(defs, t), c) == RenameTable(defs, Tagged(t, c))
  {
    var a, b := Tagged(RenameGlobal(defs, t), c), RenameTable(defs, Tagged(t, c));
    forall k: Key<V>
      ensures k in a <==> (c, k) in t
      ensures k in b <==> (c, k) in t
    {
    }
  }

  lemma RenameInsert<V>(defs: seq<ColumnDef>, t: GlobalTable<V>, c: nat, k: Key<V>, row: Row<V>)
    ensures RenameGlobal(defs, t[(c, k) := row]) == RenameGlobal(defs, t)[(c, k) := RenameRow(defs, row)]
  {
  }

  lemma InsertKeepsOthers<V>(t: GlobalTable<V>, c: nat, k: Key<V>, row: Row<V>)
    ensures WithoutChain(t[(c, k) := row], c) == WithoutChain(t, c)
  {
  }

  lemma RenameRemove<V>(defs: seq<ColumnDef>, t: GlobalTable<V>, c: nat)
    ensures RenameGlobal(defs, WithoutChain(t, c)) == WithoutChain(RenameGlobal(defs, t), c)
    ensures WithoutChain(WithoutChain(t, c), c) == WithoutChain(t, c)
    ensures Tagged(WithoutChain(t, c), c) == map[]
  {
  }

  lemma TaggedInsert<V(!new)>(t: GlobalTable<V>, c: nat, k: Key<V>, row: Row<V>)
    ensures Tagged(t[(c, k) := row], c) == Tagged(t, c)[k := row]
  {
    var a, b := Tagged(t[(c, k) := row], c), Tagged(t, c)[k := row];
    forall x: Key<V>
      ensures x in a <==> (c, x) in t || x == k
      ensures x in b <==> (c, x) in t || x == k
    {
    }
  }

  /** The share of one chain is decided by the rows of the chains beside any other. */
  lemma OthersShare<V(!new)>(t: GlobalTable<V>, u: GlobalTable<V>, c: nat, d: nat)
    requires WithoutChain(t, c) == WithoutChain(u, c) && c != d
    ensures Tagged(t, d) == Tagged(u, d)
  {
    forall x: Key<V>
      ensures (d, x) in t <==> (d, x) in u
      ensures (d, x) in t ==> t[(d, x)] == u[(d, x)]
    {
      assert (d, x) in t <==> (d, x) in WithoutChain(t, c);
      assert (d, x) in u <==> (d, x) in WithoutChain(u, c);
    }
  }

  // ================================================================ one table of every chain, and its global table

  class MirroredTable<V(==, !new)> {
    const defs: seq<ColumnDef>
    const key: seq<ColumnDef>
    var chains: map<nat, Table<V>>
    /** Per chain, the source columns of the trigger installed on its table. */
    var triggers: map<nat, seq<string>>
    var global: GlobalTable<V>
    /** The rows that triggers saw, as they were when they were inserted. */
    ghost var seen: GlobalTable<V>

    /** In every state the global table is what the triggers saw, renamed. */
    ghost predicate Valid()
      reads this
    {
      && DistinctNames(defs) && (forall d :: d in key ==> d in Synced(defs))
      && (forall c :: c in triggers ==> c in chains && triggers[c] == OwnColumns(Synced(defs)))
      && global == RenameGlobal(defs, seen)
    }

    /** The global rows tagged c are exactly the renamed rows of chain c. */
    ghost predicate Mirrors(c: nat)
      reads this
    {
      c in chains && Tagged(global, c) == RenameTable(defs, chains[c])
    }

    constructor (defs: seq<ColumnDef>, key: seq<ColumnDef>)
      requires DistinctNames(defs) && forall d :: d in key ==> d in Synced(defs)
      ensures Valid() && this.defs == defs && this.key == key && chains == map[] && triggers == map[] && global == seen == map[]
    {
      this.defs, this.key := defs, key;
      chains, triggers, global, seen := map[], map[], map[], map[];
    }

    /** A new chain's table starts empty, and without a trigger; one that exists stays as it is. */
    method CreateChainTable(c: nat)
      requires Valid()
      modifies this`chains
      ensures Valid() && chains == if c in old(chains) then old(chains) else old(chains)[c := map[]]
    {
      if c !in chains {
        chains := chains[c := map[]];
      }
    }

    /** Installs the trigger, or installs it again; it is an error when the chain has no table. */
    method SetupChainSync(c: nat) returns (ok: bool)
      requires Valid()
      modifies this`triggers
      ensures Valid() && ok == (c in chains)
      ensures triggers.Keys == if ok then old(triggers.Keys) + {c} else old(triggers.Keys)
    {
      if c !in chains {
        return false;
      }
      var names := GetCrossChainColumnNames(defs);
      var sources := BuildTriggerColumns(defs, names);
      TriggerColumnsAreOwn(defs, sources);
      triggers := triggers[c := sources];
      ok := true;
    }

    /** Adds a chain, new or known before: its table is created unless it exists, then its trigger installed. */
    method AddSyncedChain(c: nat) returns (ok: bool)
      requires Valid()
      modifies this`chains, this`triggers
      ensures Valid() && ok && chains == if c in old(chains) then old(chains) else old(chains)[c := map[]]
      ensures triggers.Keys == old(triggers.Keys) + {c}
    {
      CreateChainTable(c);
      ok := SetupChainSync(c);
    }

    /** The trigger of chain c on an inserted row: upserts the renamed row into the global table under the chain's id. */
    method Fire(c: nat, row: Row<V>)
      requires Valid() && c in triggers && HasColumns(defs, row) && HasAll(OwnColumns(key), row)
      modifies this`global, this`seen
      ensures Valid() && seen == old(seen)[(c, KeyOf(OwnColumns(key), row)) := row]
      ensures WithoutChain(global, c) == old(WithoutChain(global, c))
    {
      var projected := ProjectRow(Names(Synced(defs)), triggers[c], row);
      SameKey(defs, key, row);
      var k := KeyOf(Names(key), projected);
      RenameInsert(defs, seen, c, k, row);
      InsertKeepsOthers(global, c, k, projected);
      global, seen := global[(c, k) := projected], seen[(c, k) := row];
    }

    /** The chain has a trigger, and the row is new to its table. */
    ghost predicate Fires(tables: map<nat, Table<V>>, c: nat, row: Row<V>)
      requires HasAll(OwnColumns(key), row) && c in tables
      reads this
    {
      c in triggers && KeyOf(OwnColumns(key), row) !in tables[c]
    }

    /** Upserts one row into a chain's table. The trigger fires after an insert, not after an update of an existing row. */
    method Upsert(c: nat, row: Row<V>)
      requires Valid() && c in chains && HasColumns(defs, row) && HasAll(OwnColumns(key), row)
      modifies this`chains, this`global, this`seen
      ensures Valid() && WithoutChain(global, c) == old(WithoutChain(global, c))
      ensures chains == old(chains)[c := old(chains)[c][KeyOf(OwnColumns(key), row) := row]]
      ensures Fires(old(chains), c, row) ==> seen == old(seen)[(c, KeyOf(OwnColumns(key), row)) := row]
      ensures !Fires(old(chains), c, row) ==> seen == old(seen) && global == old(global)
    {
      var k := KeyOf(OwnColumns(key), row);
      var inserted := k !in chains[c];
      chains := chains[c := chains[c][k := row]];
      if c in triggers && inserted {
        Fire(c, row);
      }
    }

    /** Deletes a row of a chain's table; no trigger fires, so the global row stays. */
    method Delete(c: nat, k: Key<V>)
      requires Valid() && c in chains
      modifies this`chains
      ensures Valid() && chains == old(chains)[c := old(chains)[c] - {k}]
    {
      chains := chains[c := chains[c] - {k}];
    }

    /** Drops the trigger and deletes the global rows of one chain, and of no other. */
    method RemoveChainSync(c: nat)
      requires Valid()
      modifies this`triggers, this`global, this`seen
      ensures Valid() && triggers == old(triggers) - {c}
      ensures Tagged(global, c) == map[] && WithoutChain(global, c) == old(WithoutChain(global, c))
      ensures seen == WithoutChain(old(seen), c)
    {
      RenameRemove(defs, seen, c);
      RenameRemove(defs, global, c);
      triggers, global, seen := triggers - {c}, WithoutChain(global, c), WithoutChain(seen, c);
    }
  }

  // ================================================================ every run of inserts

  datatype Insert<V> = Insert(chain: nat, row: Row<V>)

  /** Every row of the run has the table's columns and its key. */
  ghost predicate Rows<V>(defs: seq<ColumnDef>, columns: seq<string>, inserts: seq<Insert<V>>) {
    forall i :: 0 <= i < |inserts| ==> HasColumns(defs, inserts[i].row) && HasAll(columns, inserts[i].row)
  }

  /** The row's key; none for a row without the key's columns. */
  function RowKey<V>(columns: seq<string>, row: Row<V>): Key<V> {
    if HasAll(columns, row) then KeyOf(columns, row) else []
  }

  /** The run as upserts by chain and key. */
  function Statements<V>(columns: seq<string>, inserts: seq<Insert<V>>): (r: seq<((nat, Key<V>), Row<V>)>)
    ensures |r| == |inserts|
    ensures forall i :: 0 <= i < |r| ==> r[i] == ((inserts[i].chain, RowKey(columns, inserts[i].row)), inserts[i].row)
  {
    seq(|inserts|, i requires 0 <= i < |inserts| => ((inserts[i].chain, RowKey(columns, inserts[i].row)), inserts[i].row))
  }

  /** The rows that the run leaves in the chains' tables, and those that it inserted first. */
  ghost function Stored<V>(columns: seq<string>, inserts: seq<Insert<V>>): GlobalTable<V> {
    Tables.Collect(Statements(columns, inserts))
  }

  ghost function InsertedFirst<V>(columns: seq<string>, inserts: seq<Insert<V>>): GlobalTable<V> {
    Tables.First(Statements(columns, inserts))
  }

  lemma NextStatement<V>(columns: seq<string>, inserts: seq<Insert<V>>, n: nat)
    requires n < |inserts|
    ensures var before, r := inserts[..n], (inserts[n].chain, RowKey(columns, inserts[n].row));
            && Stored(columns, inserts[..n + 1]) == Stored(columns, before)[r := inserts[n].row]
            && InsertedFirst(columns, inserts[..n + 1]) ==
               (if r in Stored(columns, before) then InsertedFirst(columns, before) else InsertedFirst(columns, before)[r := inserts[n].row])
  {
    var s, r := Statements(columns, inserts[..n]), (inserts[n].chain, RowKey(columns, inserts[n].row));
    assert Statements(columns, inserts[..n + 1]) == s + [(r, inserts[n].row)];
    Tables.CollectSnoc(s, (r, inserts[n].row));
    Tables.FirstSnoc(s, (r, inserts[n].row));
    Tables.FirstKeys(s, r);
  }

  predicate SameTarget<V(==)>(columns: seq<string>, a: Insert<V>, b: Insert<V>) {
    a.chain == b.chain && RowKey(columns, a.row) == RowKey(columns, b.row)
  }

  /** Rows of the run with one chain and key are the same row. */
  ghost predicate Consistent<V>(columns: seq<string>, inserts: seq<Insert<V>>) {
    forall i, j :: 0 <= i < j < |inserts| && SameTarget(columns, inserts[i], inserts[j]) ==> inserts[i].row == inserts[j].row
  }

  lemma ConsistentRow<V>(columns: seq<string>, inserts: seq<Insert<V>>, r: (nat, Key<V>))
    requires Consistent(columns, inserts)
    ensures r in InsertedFirst(columns, inserts) <==> r in Stored(columns, inserts)
    ensures r in Stored(columns, inserts) ==> InsertedFirst(columns, inserts)[r] == Stored(columns, inserts)[r]
  {
    var s := Statements(columns, inserts);
    Tables.FirstKeys(s, r);
    if r in Tables.Collect(s) {
      var i :| 0 <= i < |s| && s[i] == (r, Tables.First(s)[r]);
      var j :| 0 <= j < |s| && s[j] == (r, Tables.Collect(s)[r]);
      assert inserts[i].row == inserts[j].row;
    }
  }

  /** When no key is ever given two rows, what was inserted first is what the tables hold. */
  lemma ConsistentStays<V(!new)>(columns: seq<string>, inserts: seq<Insert<V>>)
    requires Consistent(columns, inserts)
    ensures InsertedFirst(columns, inserts) == Stored(columns, inserts)
  {
    forall r: (nat, Key<V>)
      ensures r in InsertedFirst(columns, inserts) <==> r in Stored(columns, inserts)
      ensures r in Stored(columns, inserts) ==> InsertedFirst(columns, inserts)[r] == Stored(columns, inserts)[r]
    {
      ConsistentRow(columns, inserts, r);
    }
  }

  /** The chains' tables once the given rows are written to them. */
  ghost function WithRows<V>(chains: map<nat, Table<V>>, rows: GlobalTable<V>): map<nat, Table<V>> {
    map c | c in chains :: chains[c] + Tagged(rows, c)
  }

  /** The rows that fire a trigger: new to the table of a chain that has one. */
  ghost function Fired<V>(chains: map<nat, Table<V>>, synced: set<nat>, first: GlobalTable<V>): GlobalTable<V> {
    map r | r in first && r.0 in synced && r.0 in chains && r.1 !in chains[r.0] :: first[r]
  }

  lemma TaggedAfterInsert<V(!new)>(rows: GlobalTable<V>, c: nat, k: Key<V>, row: Row<V>, d: nat)
    ensures Tagged(rows[(c, k) := row], d) == if d == c then Tagged(rows, c)[k := row] else Tagged(rows, d)
  {
    if d == c {
      TaggedInsert(rows, c, k, row);
    } else {
      assert WithoutChain(rows[(c, k) := row], c) == WithoutChain(rows, c);
      OthersShare(rows[(c, k) := row], rows, c, d);
    }
  }

  lemma OneTableChanged<V>(chains: map<nat, Table<V>>, rows: GlobalTable<V>, more: GlobalTable<V>, c: nat, share: Table<V>)
    requires c in chains
    requires forall d: nat :: Tagged(more, d) == if d == c then share else Tagged(rows, d)
    ensures WithRows(chains, more) == WithRows(chains, rows)[c := chains[c] + share]
  {
  }

  lemma AddThenUpdate<A, B>(m: map<A, B>, n: map<A, B>, a: A, b: B)
    ensures m + n[a := b] == (m + n)[a := b]
  {
  }

  lemma TableWithRows<V>(chains: map<nat, Table<V>>, rows: GlobalTable<V>, c: nat)
    requires c in chains
    ensures WithRows(chains, rows)[c] == chains[c] + Tagged(rows, c)
  {
  }

  lemma WithOneMoreRow<V(!new)>(chains: map<nat, Table<V>>, rows: GlobalTable<V>, c: nat, k: Key<V>, row: Row<V>)
    requires c in chains
    ensures WithRows(chains, rows[(c, k) := row]) == WithRows(chains, rows)[c := WithRows(chains, rows)[c][k := row]]
  {
    var more := rows[(c, k) := row];
    forall d: nat ensures Tagged(more, d) == if d == c then Tagged(rows, c)[k := row] else Tagged(rows, d) {
      TaggedAfterInsert(rows, c, k, row, d);
    }
    OneTableChanged(chains, rows, more, c, Tagged(rows, c)[k := row]);
    AddThenUpdate(chains[c], Tagged(rows, c), k, row);
    TableWithRows(chains, rows, c);
  }

  lemma HeldThere<V>(chains: map<nat, Table<V>>, rows: GlobalTable<V>, c: nat, k: Key<V>)
    requires c in chains
    ensures k in WithRows(chains, rows)[c] <==> k in chains[c] || (c, k) in rows
  {
  }

  lemma FiredNext<V>(chains: map<nat, Table<V>>, synced: set<nat>, first: GlobalTable<V>, seen: GlobalTable<V>, r: (nat, Key<V>), row: Row<V>)
    requires r.0 in chains && r !in first
    ensures seen + Fired(chains, synced, first[r := row]) ==
            if r.0 in synced && r.1 !in chains[r.0] then (seen + Fired(chains, synced, first))[r := row]
            else seen + Fired(chains, synced, first)
  {
    if r.0 in synced && r.1 !in chains[r.0] {
      assert Fired(chains, synced, first[r := row]) == Fired(chains, synced, first)[r := row];
    } else {
      assert Fired(chains, synced, first[r := row]) == Fired(chains, synced, first);
    }
  }

  /** After the first n upserts of a run that found these tables, triggers and rows seen by them. */
  ghost predicate Performed<V>(columns: seq<string>, tables: map<nat, Table<V>>, synced: set<nat>, before: GlobalTable<V>,
                               inserts: seq<Insert<V>>, n: nat, chains: map<nat, Table<V>>, seen: GlobalTable<V>)
    requires n <= |inserts|
  {
    && chains == WithRows(tables, Stored(columns, inserts[..n]))
    && seen == before + Fired(tables, synced, InsertedFirst(columns, inserts[..n]))
  }

  lemma NothingPerformed<V>(columns: seq<string>, tables: map<nat, Table<V>>, synced: set<nat>, before: GlobalTable<V>, inserts: seq<Insert<V>>)
    ensures Performed(columns, tables, synced, before, inserts, 0, tables, before)
  {
    assert Statements(columns, inserts[..0]) == [];
    assert Tables.Collect<(nat, Key<V>), Row<V>>([]) == map[] && Tables.First<(nat, Key<V>), Row<V>>([]) == map[];
    assert Fired(tables, synced, map[]) == map[] && before + map[] == before;
    forall c | c in tables ensures tables[c] + Tagged(map[], c) == tables[c] {
      assert Tagged<V>(map[], c) == map[];
    }
  }

  /** One more upsert keeps the chains' tables and the rows seen what they should be. */
  lemma NextUpsert<V(!new)>(columns: seq<string>, tables: map<nat, Table<V>>, synced: set<nat>, before: GlobalTable<V>,
                           inserts: seq<Insert<V>>, n: nat, k: Key<V>,
                           chains: map<nat, Table<V>>, after: map<nat, Table<V>>, seen: GlobalTable<V>, more: GlobalTable<V>)
    requires n < |inserts| && inserts[n].chain in tables && k == RowKey(columns, inserts[n].row)
    requires Performed(columns, tables, synced, before, inserts, n, chains, seen)
    requires after == chains[inserts[n].chain := chains[inserts[n].chain][k := inserts[n].row]]
    requires more == if inserts[n].chain in synced && k !in chains[inserts[n].chain] then seen[(inserts[n].chain, k) := inserts[n].row] else seen
    ensures Performed(columns, tables, synced, before, inserts, n + 1, after, more)
  {
    var c, stored, first := inserts[n].chain, Stored(columns, inserts[..n]), InsertedFirst(columns, inserts[..n]);
    NextStatement(columns, inserts, n);
    Tables.FirstKeys(Statements(columns, inserts[..n]), (c, k));
    HeldThere(tables, stored, c, k);
    WithOneMoreRow(tables, stored, c, k, inserts[n].row);
    if (c, k) !in stored {
      FiredNext(tables, synced, first, before, (c, k), inserts[n].row);
    }
  }

  lemma SameKeys<A, B>(m: map<A, B>, a: A, b: B)
    requires a in m
    ensures m[a := b].Keys == m.Keys
  {
  }

  /** One upsert of a run. */
  method PerformNext<V(==, !new)>(t: MirroredTable<V>, ghost tables: map<nat, Table<V>>, ghost synced: set<nat>, ghost before: GlobalTable<V>,
                                  inserts: seq<Insert<V>>, n: nat)
    requires t.Valid() && t.chains.Keys == tables.Keys && synced == t.triggers.Keys && n < |inserts| && inserts[n].chain in tables
    requires HasColumns(t.defs, inserts[n].row) && HasAll(OwnColumns(t.key), inserts[n].row)
    requires Performed(OwnColumns(t.key), tables, synced, before, inserts, n, t.chains, t.seen)
    modifies t`chains, t`global, t`seen
    ensures t.Valid() && t.chains.Keys == tables.Keys
    ensures Performed(OwnColumns(t.key), tables, synced, before, inserts, n + 1, t.chains, t.seen)
  {
    ghost var c, chains, seen, k := inserts[n].chain, t.chains, t.seen, KeyOf(OwnColumns(t.key), inserts[n].row);
    UpsertOne(t, inserts[n].chain, inserts[n].row, synced, k);
    SameKeys(chains, c, chains[c][k := inserts[n].row]);
    NextUpsert(OwnColumns(t.key), tables, synced, before, inserts, n, k, chains, t.chains, seen, t.seen);
  }

  method UpsertOne<V(==, !new)>(t: MirroredTable<V>, c: nat, row: Row<V>, ghost synced: set<nat>, ghost k: Key<V>)
    requires t.Valid() && c in t.chains && synced == t.triggers.Keys
    requires HasColumns(t.defs, row) && HasAll(OwnColumns(t.key), row) && k == KeyOf(OwnColumns(t.key), row)
    modifies t`chains, t`global, t`seen
    ensures t.Valid() && t.chains == old(t.chains)[c := old(t.chains)[c][k := row]]
    ensures t.seen == if c in synced && k !in old(t.chains)[c] then old(t.seen)[(c, k) := row] else old(t.seen)
  {
    t.Upsert(c, row);
  }

  /** For chain c, the rows inserted first and the rows stored last look alike in the synced columns. */
  ghost predicate LookAlike<V>(defs: seq<ColumnDef>, columns: seq<string>, inserts: seq<Insert<V>>, c: nat) {
    RenameTable(defs, Tagged(InsertedFirst(columns, inserts), c)) == RenameTable(defs, Tagged(Stored(columns, inserts), c))
  }

  lemma TaggedFired<V(!new)>(tables: map<nat, Table<V>>, synced: set<nat>, before: GlobalTable<V>, first: GlobalTable<V>, c: nat, k: Key<V>)
    requires c in synced && c in tables && Tagged(before, c) == map[]
    ensures k in Tagged(before + Fired(tables, synced, first), c) <==> (c, k) in first && k !in tables[c]
    ensures (c, k) in first && k !in tables[c] ==> Tagged(before + Fired(tables, synced, first), c)[k] == first[(c, k)]
  {
    assert (c, k) in before <==> k in Tagged(before, c);
  }

  lemma FiredFromEmpty<V(!new)>(tables: map<nat, Table<V>>, synced: set<nat>, before: GlobalTable<V>, first: GlobalTable<V>, c: nat)
    requires c in synced && c in tables && Tagged(before, c) == map[] && tables[c] == map[]
    ensures Tagged(before + Fired(tables, synced, first), c) == Tagged(first, c)
  {
    forall k: Key<V>
      ensures k in Tagged(before + Fired(tables, synced, first), c) <==> k in Tagged(first, c)
      ensures k in Tagged(first, c) ==> Tagged(before + Fired(tables, synced, first), c)[k] == Tagged(first, c)[k]
    {
      TaggedFired(tables, synced, before, first, c, k);
    }
  }

  lemma AlikeMeans<V(!new)>(defs: seq<ColumnDef>, columns: seq<string>, inserts: seq<Insert<V>>, c: nat, chain: Table<V>, share: Table<V>)
    requires chain == Tagged(Stored(columns, inserts), c) && share == Tagged(InsertedFirst(columns, inserts), c)
    ensures RenameTable(defs, share) == RenameTable(defs, chain) <==> LookAlike(defs, columns, inserts, c)
    ensures Consistent(columns, inserts) ==> share == chain
  {
    if Consistent(columns, inserts) {
      ConsistentStays(columns, inserts);
    }
  }

  lemma NothingPlus<A, B>(m: map<A, B>, n: map<A, B>)
    requires m == map[]
    ensures m + n == n
  {
  }

  lemma FilledLacks<V(!new)>(defs: seq<ColumnDef>, columns: seq<string>, tables: map<nat, Table<V>>, synced: set<nat>, before: GlobalTable<V>,
                            inserts: seq<Insert<V>>, c: nat, chain: Table<V>, share: Table<V>)
    requires c in synced && c in tables && Tagged(before, c) == map[] && tables[c] != map[]
    requires chain == tables[c] + Tagged(Stored(columns, inserts), c)
    requires share == Tagged(before + Fired(tables, synced, InsertedFirst(columns, inserts)), c)
    ensures RenameTable(defs, share) != RenameTable(defs, chain)
  {
    var k :| k in tables[c];
    TaggedFired(tables, synced, before, InsertedFirst(columns, inserts), c, k);
    LacksKey(defs, share, chain, k);
  }

  /** Exactly when the global rows of a chain that had none are its table: it was empty, and first and last rows look alike. */
  lemma MirrorsExactly<V(!new)>(t: MirroredTable<V>, tables: map<nat, Table<V>>, before: GlobalTable<V>, inserts: seq<Insert<V>>, c: nat)
    requires t.Valid() && Performed(OwnColumns(t.key), tables, t.triggers.Keys, before, inserts, |inserts|, t.chains, t.seen)
    requires c in t.triggers && c in tables && Tagged(before, c) == map[]
    ensures t.Mirrors(c) <==> tables[c] == map[] && LookAlike(t.defs, OwnColumns(t.key), inserts, c)
    ensures tables[c] == map[] && Consistent(OwnColumns(t.key), inserts) ==> t.Mirrors(c)
  {
    assert inserts[..|inserts|] == inserts;
    TaggedRenamed(t.defs, t.seen, c);
    TableWithRows(tables, Stored(OwnColumns(t.key), inserts), c);
    if tables[c] == map[] {
      FiredFromEmpty(tables, t.triggers.Keys, before, InsertedFirst(OwnColumns(t.key), inserts), c);
      NothingPlus(tables[c], Tagged(Stored(OwnColumns(t.key), inserts), c));
      AlikeMeans(t.defs, OwnColumns(t.key), inserts, c, t.chains[c], Tagged(t.seen, c));
    } else {
      FilledLacks(t.defs, OwnColumns(t.key), tables, t.triggers.Keys, before, inserts, c, t.chains[c], Tagged(t.seen, c));
    }
  }

  lemma LacksKey<V>(defs: seq<ColumnDef>, a: Table<V>, b: Table<V>, k: Key<V>)
    requires k !in a && k in b
    ensures RenameTable(defs, a) != RenameTable(defs, b)
  {
    assert k in RenameTable(defs, b) && k !in RenameTable(defs, a);
  }

  /**
   Any run of upserts, from any state: each chain's table holds the last row of every key over what it held, and
   the triggers saw the rows inserted first, of the chains that have one, under keys that were new. For a chain
   that has a trigger and had no global rows, these are then the chain's table, renamed, exactly when the table
   was empty and first and last rows look alike in the synced columns; so whenever it was empty and no key is
   given two rows.
   */
  method PerformInserts<V(==, !new)>(t: MirroredTable<V>, inserts: seq<Insert<V>>)
    requires t.Valid() && forall i :: 0 <= i < |inserts| ==> inserts[i].chain in t.chains
    requires Rows(t.defs, OwnColumns(t.key), inserts)
    modifies t`chains, t`global, t`seen
    ensures t.Valid() && t.chains == WithRows(old(t.chains), Stored(OwnColumns(t.key), inserts))
    ensures t.global == RenameGlobal(t.defs, old(t.seen) + Fired(old(t.chains), t.triggers.Keys, InsertedFirst(OwnColumns(t.key), inserts)))
    ensures forall c :: c in t.triggers && Tagged(old(t.seen), c) == map[] ==>
            (t.Mirrors(c) <==> old(t.chains)[c] == map[] && LookAlike(t.defs, OwnColumns(t.key), inserts, c))
    ensures Consistent(OwnColumns(t.key), inserts) ==>
            forall c :: c in t.triggers && Tagged(old(t.seen), c) == map[] && old(t.chains)[c] == map[] ==> t.Mirrors(c)
  {
    ghost var tables, before := t.chains, t.seen;
    NothingPerformed(OwnColumns(t.key), tables, t.triggers.Keys, before, inserts);
    for n := 0 to |inserts|
      invariant t.Valid() && t.chains.Keys == tables.Keys
      invariant Performed(OwnColumns(t.key), tables, t.triggers.Keys, before, inserts, n, t.chains, t.seen)
    {
      PerformNext(t, tables, t.triggers.Keys, before, inserts, n);
    }
    forall c | c in t.triggers && Tagged(before, c) == map[]
      ensures t.Mirrors(c) <==> tables[c] == map[] && LookAlike(t.defs, OwnColumns(t.key), inserts, c)
      ensures tables[c] == map[] && Consistent(OwnColumns(t.key), inserts) ==> t.Mirrors(c)
    {
      MirrorsExactly(t, tables, before, inserts, c);
    }
    assert inserts[..|inserts|] == inserts;
  }

  /**
   A chain that is paused and resumed: its trigger is dropped with its global rows, and installed again, and
   nothing is copied. Whatever is written afterwards, the global rows are the chain's table exactly when there was
   nothing in it at the pause and first and last rows look alike.
   */
  method PauseAndResume<V(==, !new)>(t: MirroredTable<V>, c: nat, inserts: seq<Insert<V>>)
    requires t.Valid() && c in t.chains && forall i :: 0 <= i < |inserts| ==> inserts[i].chain in t.chains
    requires Rows(t.defs, OwnColumns(t.key), inserts)
    modifies t
    ensures t.Valid() && t.chains == WithRows(old(t.chains), Stored(OwnColumns(t.key), inserts))
    ensures t.Mirrors(c) <==> old(t.chains)[c] == map[] && LookAlike(t.defs, OwnColumns(t.key), inserts, c)
  {
    SyncAgain(t, c);
    PerformInserts(t, inserts);
  }

  method SyncAgain<V(==, !new)>(t: MirroredTable<V>, c: nat)
    requires t.Valid() && c in t.chains
    modifies t`triggers, t`global, t`seen
    ensures t.Valid() && c in t.triggers && Tagged(t.seen, c) == map[]
  {
    t.RemoveChainSync(c);
    RenameRemove(t.defs, old(t.seen), c);
    var ok := t.SetupChainSync(c);
  }

  // ================================================================ the rows of one chain's log

  /** What a run brings for one chain, as upserts by key. */
  ghost function OfChain<V>(columns: seq<string>, inserts: seq<Insert<V>>, c: nat): seq<(Key<V>, Row<V>)> {
    if inserts == [] then []
    else
      var last := inserts[|inserts| - 1];
      OfChain(columns, inserts[..|inserts| - 1], c) + if last.chain == c then [(RowKey(columns, last.row), last.row)] else []
  }

  /** The other chains' inserts in between do not matter. */
  lemma {:induction false} ChainFirst<V>(columns: seq<string>, inserts: seq<Insert<V>>, c: nat, k: Key<V>)
    ensures (c, k) in InsertedFirst(columns, inserts) <==> k in Tables.First(OfChain(columns, inserts, c))
    ensures (c, k) in InsertedFirst(columns, inserts) ==>
            InsertedFirst(columns, inserts)[(c, k)] == Tables.First(OfChain(columns, inserts, c))[k]
  {
    if inserts == [] {
      assert Statements(columns, inserts) == [];
    } else {
      var n := |inserts| - 1;
      var rest, k' := inserts[..n], RowKey(columns, inserts[n].row);
      ChainFirst(columns, rest, c, k);
      assert inserts[..n + 1] == inserts;
      NextStatement(columns, inserts, n);
      Tables.FirstKeys(Statements(columns, rest), (inserts[n].chain, k'));
      if inserts[n].chain == c {
        Tables.FirstSnoc(OfChain(columns, rest, c), (k', inserts[n].row));
        assert OfChain(columns, inserts, c) == OfChain(columns, rest, c) + [(k', inserts[n].row)];
      } else {
        assert OfChain(columns, inserts, c) == OfChain(columns, rest, c);
      }
    }
  }

  /** How the rows of a table with keys K and rows A are written by column names. */
  datatype Layout<!K, !A, !V> = Layout(key: K -> Key<V>, row: (K, A) -> Row<V>)

  ghost predicate Injective<K(!new), A, V>(l: Layout<K, A, V>) {
    forall j, k :: l.key(j) == l.key(k) ==> j == k
  }

  ghost function Written<K, A, V>(l: Layout<K, A, V>, s: seq<(K, A)>): (r: seq<(Key<V>, Row<V>)>)
    ensures |r| == |s| && forall i :: 0 <= i < |s| ==> r[i] == (l.key(s[i].0), l.row(s[i].0, s[i].1))
  {
    seq(|s|, i requires 0 <= i < |s| => (l.key(s[i].0), l.row(s[i].0, s[i].1)))
  }

  lemma {:induction false} WrittenFirst<K(!new), A, V>(l: Layout<K, A, V>, s: seq<(K, A)>, k: K)
    requires Injective(l)
    ensures l.key(k) in Tables.First(Written(l, s)) <==> k in Tables.First(s)
    ensures k in Tables.First(s) ==> Tables.First(Written(l, s))[l.key(k)] == l.row(k, Tables.First(s)[k])
  {
    if s != [] {
      var n := |s| - 1;
      WrittenFirst(l, s[..n], k);
      WrittenFirst(l, s[..n], s[n].0);
      assert Written(l, s) == Written(l, s[..n]) + [(l.key(s[n].0), l.row(s[n].0, s[n].1))];
      Tables.FirstSnoc(Written(l, s[..n]), (l.key(s[n].0), l.row(s[n].0, s[n].1)));
    }
  }

  /**
   When what a run brings for a chain are the statements of a log of deliveries, the global table holds, under
   the chain and a key and height, the renamed row of the chain's first delivery that writes it - and, where the
   deliveries agree, the renamed row that the chain's own table holds.
   */
  lemma GlobalRowsOfLog<K(!new), A, V>(defs: seq<ColumnDef>, columns: seq<string>, inserts: seq<Insert<V>>, c: nat,
                                       l: Layout<(K, nat), A, V>, feed: Feed<K, A>, log: seq<Delivery>, k: K, h: nat)
    requires Injective(l) && OfChain(columns, inserts, c) == Written(l, Upserts(feed, log))
    ensures var g, r := RenameGlobal(defs, InsertedFirst(columns, inserts)), (c, l.key((k, h)));
            && (r in g <==> (k, h) in Global(feed, log))
            && (r in g ==> g[r] == RenameRow(defs, l.row((k, h), Global(feed, log)[(k, h)])))
            && (AgreeOn(feed, Whole(), log, k) ==>
                 (r in g <==> (k, h) in Replay(feed, log)) &&
                 (r in g ==> g[r] == RenameRow(defs, l.row((k, h), Replay(feed, log)[(k, h)]))))
  {
    ChainFirst(columns, inserts, c, l.key((k, h)));
    WrittenFirst(l, Upserts(feed, log), (k, h));
    if AgreeOn(feed, Whole(), log, k) {
      GlobalRow(feed, Whole(), log, k, h);
    }
  }
}
