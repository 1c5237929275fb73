/**
 * The static team catalog generator (`scripts/generate_teams_master.py`):
 * every team of the per-competition table becomes a record keyed
 * `"<competition>-<num>"`, filled from the table with empty defaults and
 * empty logo URLs, in table order; the catalog is what `teams.json` is
 * overwritten with.
 */
module GenerateTeamsMaster {
  import opened Text
  import opened Sorting

  /** A row of the table: `num`, `name` and `short_name`, and the optional keys. */
  datatype Entry = Entry(num: int, name: string, shortName: string,
    nameJa: Option<string>, country: Option<string>, division: Option<string>)

  /** A generated team record. */
  datatype Record = Record(id: string, competitionId: string, name: string, nameJa: string, shortName: string,
    country: string, division: string, logoUrl: string, badgeUrl: string)

  /** The `teams` dict: its keys in insertion order and its records. */
  datatype Catalog = Catalog(keys: seq<string>, records: map<string, Record>)

  function OrEmpty(o: Option<string>): string { if o.Some? then o.value else "" }

  /** `f"{comp_id}-{team_data['num']}"`. */
  function KeyOf(comp: string, e: Entry): string { comp + "-" + IntToString(e.num) }

  /** The record of one table row. */
  function RecordOf(comp: string, e: Entry): Record
  {
    Record(KeyOf(comp, e), comp, e.name, OrEmpty(e.nameJa), e.shortName, OrEmpty(e.country), OrEmpty(e.division), "", "")
  }

  /** `teams[key] = record`: a new key goes last, an existing one keeps its place. */
  function Put(c: Catalog, key: string, r: Record): Catalog
  {
    if key in c.records then Catalog(c.keys, c.records[key := r]) else Catalog(c.keys + [key], c.records[key := r])
  }

  /** A row with its competition. */
  datatype Row = Row(comp: string, entry: Entry)

  function RowFn(comp: string): Entry -> Row { (e: Entry) => Row(comp, e) }

  function RowKey(r: Row): string { KeyOf(r.comp, r.entry) }

  /** The rows of the table in loop order: competitions in order, each one's teams in order. */
  function Rows(table: seq<(string, seq<Entry>)>): seq<Row>
  {
    if |table| == 0 then []
    else Rows(table[..|table| - 1]) + Map(table[|table| - 1].1, RowFn(table[|table| - 1].0))
  }

  /** The catalog after the rows `rs`, starting from `c`. */
  function BuildFrom(c: Catalog, rs: seq<Row>): Catalog
  {
    if |rs| == 0 then c
    else
      var r := rs[|rs| - 1];
      Put(BuildFrom(c, rs[..|rs| - 1]), RowKey(r), RecordOf(r.comp, r.entry))
  }

  const Empty := Catalog([], map[])

  /** The catalog `main` writes. */
  function Generated(table: seq<(string, seq<Entry>)>): Catalog
  {
    BuildFrom(Empty, Rows(table))
  }

  lemma {:induction false} BuildFromAppend(c: Catalog, a: seq<Row>, b: seq<Row>)
    ensures BuildFrom(c, a + b) == BuildFrom(BuildFrom(c, a), b)
  {
    if |b| == 0 {
      assert a + b == a;
    } else {
      BuildFromAppend(c, a, b[..|b| - 1]);
      AppendInit(a, b);
    }
  }

  lemma AppendInit<T>(a: seq<T>, b: seq<T>)
    requires |b| > 0
    ensures (a + b)[..|a + b| - 1] == a + b[..|b| - 1] && (a + b)[|a + b| - 1] == b[|b| - 1]
  {
  }

  /** The keys are listed once each, and they are exactly the records' keys. */
  ghost predicate CatalogOk(c: Catalog)
  {
    Distinct(c.keys) && forall k :: k in c.records <==> k in c.keys
  }

  /** `teams[k] = v` for the keys `ks` and the records `vs`, in order. */
  function PutAll(c: Catalog, ks: seq<string>, vs: seq<Record>): Catalog
    requires |ks| == |vs|
  {
    if |ks| == 0 then c else Put(PutAll(c, ks[..|ks| - 1], vs[..|vs| - 1]), ks[|ks| - 1], vs[|vs| - 1])
  }

  function RecordFn(): Row -> Record { (r: Row) => RecordOf(r.comp, r.entry) }

  lemma {:induction false} BuildFromPutAll(c: Catalog, rs: seq<Row>)
    ensures |Map(rs, RowKey)| == |Map(rs, RecordFn())| == |rs|
    ensures BuildFrom(c, rs) == PutAll(c, Map(rs, RowKey), Map(rs, RecordFn()))
  {
    MapSpec(rs, RowKey);
    MapSpec(rs, RecordFn());
    if |rs| > 0 {
      var init := rs[..|rs| - 1];
      BuildFromPutAll(c, init);
      SnocPrefix(Map(init, RowKey), RowKey(rs[|rs| - 1]));
      SnocPrefix(Map(init, RecordFn()), RecordFn()(rs[|rs| - 1]));
    }
  }

  lemma {:induction false} PutAllOk(ks: seq<string>, vs: seq<Record>)
    requires |ks| == |vs|
    ensures CatalogOk(PutAll(Empty, ks, vs))
    ensures forall k :: k in PutAll(Empty, ks, vs).records <==> k in ks
  {
    if |ks| > 0 {
      var init, k := ks[..|ks| - 1], ks[|ks| - 1];
      PutAllOk(init, vs[..|vs| - 1]);
      var c := PutAll(Empty, init, vs[..|vs| - 1]);
      if k !in c.records {
        DistinctAppend(c.keys, k);
      }
      SnocMembers(ks);
    }
  }

  lemma {:induction false} PutAllIds(ks: seq<string>, vs: seq<Record>)
    requires |ks| == |vs| && forall i :: 0 <= i < |ks| ==> vs[i].id == ks[i]
    ensures forall k :: k in PutAll(Empty, ks, vs).records ==> PutAll(Empty, ks, vs).records[k].id == k
  {
    if |ks| > 0 {
      var n := |ks| - 1;
      assert forall i :: 0 <= i < n ==> vs[..n][i] == vs[i] && ks[..n][i] == ks[i];
      PutAllIds(ks[..n], vs[..n]);
    }
  }

  /** No later key equals the key at `i`. */
  predicate LastAt(ks: seq<string>, i: int)
    requires 0 <= i < |ks|
  {
    forall j :: i < j < |ks| ==> ks[j] != ks[i]
  }

  lemma {:induction false} PutAllLastAt(ks: seq<string>, vs: seq<Record>, i: int)
    requires |ks| == |vs| && 0 <= i < |ks| && LastAt(ks, i)
    ensures ks[i] in PutAll(Empty, ks, vs).records && PutAll(Empty, ks, vs).records[ks[i]] == vs[i]
  {
    var n := |ks| - 1;
    if i < n {
      assert ks[..n][i] == ks[i] && vs[..n][i] == vs[i];
      assert forall j :: i < j < n ==> ks[..n][j] == ks[j];
      PutAllLastAt(ks[..n], vs[..n], i);
      assert ks[n] != ks[i];
    }
  }

  lemma {:induction false} PutAllDistinct(ks: seq<string>, vs: seq<Record>)
    requires |ks| == |vs| && Distinct(ks)
    ensures PutAll(Empty, ks, vs).keys == ks
  {
    if |ks| > 0 {
      var n := |ks| - 1;
      assert Distinct(ks[..n]);
      PutAllDistinct(ks[..n], vs[..n]);
      PutAllOk(ks[..n], vs[..n]);
      assert ks[n] !in ks[..n];
      TakeNext(ks, n);
    }
  }

  /**
   * Every record's id is its key, the keys are listed once each, and a key
   * is present exactly when some row has it.
   */
  lemma GeneratedSpec(rs: seq<Row>)
    ensures var c := BuildFrom(Empty, rs);
      CatalogOk(c)
      && (forall k :: k in c.records ==> c.records[k].id == k)
      && (forall k :: k in c.records <==> k in Map(rs, RowKey))
  {
    var ks, vs := Map(rs, RowKey), Map(rs, RecordFn());
    BuildFromPutAll(Empty, rs);
    MapSpec(rs, RowKey);
    MapSpec(rs, RecordFn());
    PutAllOk(ks, vs);
    PutAllIds(ks, vs);
  }

  /** A key's record is the one made from the last row with that key. */
  lemma GeneratedLastRow(rs: seq<Row>, i: int)
    requires 0 <= i < |rs| && forall j :: i < j < |rs| ==> RowKey(rs[j]) != RowKey(rs[i])
    ensures RowKey(rs[i]) in BuildFrom(Empty, rs).records
      && BuildFrom(Empty, rs).records[RowKey(rs[i])] == RecordOf(rs[i].comp, rs[i].entry)
  {
    var ks, vs := Map(rs, RowKey), Map(rs, RecordFn());
    BuildFromPutAll(Empty, rs);
    MapSpec(rs, RowKey);
    MapSpec(rs, RecordFn());
    assert LastAt(ks, i);
    PutAllLastAt(ks, vs, i);
  }

  lemma DistinctAppend<T>(s: seq<T>, x: T)
    requires Distinct(s) && x !in s
    ensures Distinct(s + [x])
  {
  }

  /** A key without a minus sign in its number splits back into its competition and number. */
  lemma KeyInjective(c1: string, e1: Entry, c2: string, e2: Entry)
    requires e1.num >= 0 && e2.num >= 0
    ensures KeyOf(c1, e1) == KeyOf(c2, e2) <==> c1 == c2 && e1.num == e2.num
  {
    if KeyOf(c1, e1) == KeyOf(c2, e2) {
      var d1, d2 := NatToString(e1.num), NatToString(e2.num);
      LastSeparator(c1, d1, c2, d2);
      DigitsOfNat(e1.num);
      DigitsOfNat(e2.num);
    }
  }

  /** Splitting at a separator that the tails do not contain. */
  lemma LastSeparator(a1: string, d1: string, a2: string, d2: string)
    requires forall i :: 0 <= i < |d1| ==> IsDigit(d1[i])
    requires forall i :: 0 <= i < |d2| ==> IsDigit(d2[i])
    requires a1 + "-" + d1 == a2 + "-" + d2
    ensures a1 == a2 && d1 == d2
  {
    var s := a1 + "-" + d1;
    assert s[|a1|] == '-' && s[|a2|] == '-';
    assert |a1| == |a2|;
    assert a1 == s[..|a1|] && a2 == s[..|a2|];
    assert d1 == s[|a1| + 1..] && d2 == s[|a2| + 1..];
  }

  /** No two rows name the same number in the same competition, and no number is negative. */
  predicate UniqueNums(rs: seq<Row>)
  {
    (forall i :: 0 <= i < |rs| ==> rs[i].entry.num >= 0)
    && forall i, j :: 0 <= i < j < |rs| ==> rs[i].comp != rs[j].comp || rs[i].entry.num != rs[j].entry.num
  }

  /**
   * With numbers unique within each competition, every row yields its own
   * record, in row order.
   */
  lemma OneRecordPerRow(table: seq<(string, seq<Entry>)>)
    requires UniqueNums(Rows(table))
    ensures var rs, c := Rows(table), Generated(table);
      c.keys == Map(rs, RowKey) && |c.keys| == |rs|
      && forall i :: 0 <= i < |rs| ==> RowKey(rs[i]) in c.records && c.records[RowKey(rs[i])] == RecordOf(rs[i].comp, rs[i].entry)
  {
    var rs := Rows(table);
    var ks, vs := Map(rs, RowKey), Map(rs, RecordFn());
    MapSpec(rs, RowKey);
    MapSpec(rs, RecordFn());
    forall i, j | 0 <= i < j < |ks| ensures ks[i] != ks[j] {
      KeyInjective(rs[i].comp, rs[i].entry, rs[j].comp, rs[j].entry);
    }
    BuildFromPutAll(Empty, rs);
    PutAllDistinct(ks, vs);
    forall i | 0 <= i < |rs| ensures RowKey(rs[i]) in Generated(table).records
      && Generated(table).records[RowKey(rs[i])] == RecordOf(rs[i].comp, rs[i].entry)
    {
      PutAllLastAt(ks, vs, i);
    }
  }

  /** `teams[team_id] = {...}` for one row. */
  method PutTeam(c: Catalog, comp: string, e: Entry) returns (r: Catalog)
    ensures r == Put(c, KeyOf(comp, e), RecordOf(comp, e))
  {
    var key := comp + "-" + IntToString(e.num);
    var rec := Record(key, comp, e.name, OrEmpty(e.nameJa), e.shortName, OrEmpty(e.country), OrEmpty(e.division), "", "");
    if key in c.records {
      r := Catalog(c.keys, c.records[key := rec]);
    } else {
      r := Catalog(c.keys + [key], c.records[key := rec]);
    }
  }

  lemma AddStep(c: Catalog, comp: string, entries: seq<Entry>, j: nat)
    requires j < |entries|
    ensures BuildFrom(c, Map(entries[..j + 1], RowFn(comp)))
      == Put(BuildFrom(c, Map(entries[..j], RowFn(comp))), KeyOf(comp, entries[j]), RecordOf(comp, entries[j]))
  {
    SnocMap(entries, j, RowFn(comp));
    SnocPrefix(Map(entries[..j], RowFn(comp)), Row(comp, entries[j]));
  }

  /** The inner loop: one competition's teams, in order. */
  method AddTeams(c: Catalog, comp: string, entries: seq<Entry>) returns (r: Catalog)
    ensures r == BuildFrom(c, Map(entries, RowFn(comp)))
  {
    r := c;
    var j := 0;
    while j < |entries|
      invariant 0 <= j <= |entries| && r == BuildFrom(c, Map(entries[..j], RowFn(comp)))
    {
      r := PutTeam(r, comp, entries[j]);
      AddStep(c, comp, entries, j);
      j := j + 1;
    }
    TakeAll(entries);
  }

  /** `main`: the nested loop over the table. */
  method GenerateTeams(table: seq<(string, seq<Entry>)>) returns (c: Catalog)
    ensures c == Generated(table)
  {
    c := Empty;
    var i := 0;
    while i < |table|
      invariant 0 <= i <= |table| && c == BuildFrom(Empty, Rows(table[..i]))
    {
      var (comp, entries) := table[i];
      c := AddTeams(c, comp, entries);
      RowsStep(table, i);
      BuildFromAppend(Empty, Rows(table[..i]), Map(entries, RowFn(comp)));
      i := i + 1;
    }
    TakeAll(table);
  }

  lemma RowsStep(table: seq<(string, seq<Entry>)>, i: nat)
    requires i < |table|
    ensures Rows(table[..i + 1]) == Rows(table[..i]) + Map(table[i].1, RowFn(table[i].0))
  {
    assert table[..i + 1][..i] == table[..i];
  }
}
