/** The per-group form of the precedence rule, for queries that `sum by` labels
    including `node_name`: a group's SoC power comes from `psys` when the group's
    node reports `psys` and from `package` otherwise. */
module GroupedPower {
  import opened Samples
  import opened PromQL
  import opened DomainResolver

  /** `(u{zone="psys"} and on(node_name) psys) or (u{zone="package"} unless on(node_name) psys)`:
      the SoC readings of `u`, each kept only if it agrees with the node's rail. */
  function SocVector(u: Vector, psys: Vector): Vector
  {
    Or(AndOnNode(Select(u, Zone, Psys), psys), UnlessOnNode(Select(u, Zone, Package), psys))
  }

  /** The total of the readings of zone `z` that fall in output group `g`. */
  function GroupZoneSum(u: Vector, z: string, grouping: set<string>, g: LabelSet): real
  {
    if u == [] then 0.0
    else (if ZoneOf(u[0]) == z && Project(u[0].metric, grouping) == g then u[0].value else 0.0)
         + GroupZoneSum(u[1..], z, grouping, g)
  }

  predicate GroupHasZone(u: Vector, z: string, grouping: set<string>, g: LabelSet)
  {
    exists s :: s in u && ZoneOf(s) == z && Project(s.metric, grouping) == g
  }

  /** The reference SoC power of group `g`, given the nodes `p` that report `psys`. */
  function GroupSoc(u: Vector, p: set<string>, grouping: set<string>, g: LabelSet): real
  {
    if Label(g, NodeName) in p then GroupZoneSum(u, Psys, grouping, g)
    else GroupZoneSum(u, Package, grouping, g)
  }

  predicate GroupHasSoc(u: Vector, p: set<string>, grouping: set<string>, g: LabelSet)
  {
    if Label(g, NodeName) in p then GroupHasZone(u, Psys, grouping, g)
    else GroupHasZone(u, Package, grouping, g)
  }

  /** A grouping label reads the same on the output group as on the sample. */
  lemma ProjectLabel(m: LabelSet, grouping: set<string>, k: string)
    requires k in grouping
    ensures Label(Project(m, grouping), k) == Label(m, k)
  {
  }

  lemma {:induction false} SumKeySelect(u: Vector, z: string, grouping: set<string>, g: LabelSet)
    ensures SumKey(Select(u, Zone, z), grouping, g) == GroupZoneSum(u, z, grouping, g)
  {
    if u != [] {
      SumKeySelect(u[1..], z, grouping, g);
      var head := if ZoneOf(u[0]) == z then [u[0]] else [];
      assert Select(u, Zone, z) == head + Select(u[1..], Zone, z);
      SumKeyAppend(head, Select(u[1..], Zone, z), grouping, g);
    }
  }

  /** Restricting to the nodes in (or not in) `keys` keeps a group's total
      whole or drops it whole, as the group's node decides. */
  lemma {:induction false} SumKeyWhereNode(x: Vector, keys: set<string>, inside: bool, grouping: set<string>, g: LabelSet)
    requires NodeName in grouping
    ensures SumKey(WhereNode(x, keys, inside), grouping, g)
         == if (Label(g, NodeName) in keys) == inside then SumKey(x, grouping, g) else 0.0
  {
    if x != [] {
      SumKeyWhereNode(x[1..], keys, inside, grouping, g);
      ProjectLabel(x[0].metric, grouping, NodeName);
      var head := if (Label(x[0].metric, NodeName) in keys) == inside then [x[0]] else [];
      assert WhereNode(x, keys, inside) == head + WhereNode(x[1..], keys, inside);
      SumKeyAppend(head, WhereNode(x[1..], keys, inside), grouping, g);
    }
  }

  lemma {:induction false} NoGroupNoSum(u: Vector, z: string, grouping: set<string>, g: LabelSet)
    requires !GroupHasZone(u, z, grouping, g)
    ensures GroupZoneSum(u, z, grouping, g) == 0.0
  {
    if u != [] {
      assert u[0] in u;
      assert forall s :: s in u[1..] ==> s in u;
      NoGroupNoSum(u[1..], z, grouping, g);
    }
  }

  lemma NoSocNoSum(u: Vector, p: set<string>, grouping: set<string>, g: LabelSet)
    requires !GroupHasSoc(u, p, grouping, g)
    ensures GroupSoc(u, p, grouping, g) == 0.0
  {
    if Label(g, NodeName) in p {
      NoGroupNoSum(u, Psys, grouping, g);
    } else {
      NoGroupNoSum(u, Package, grouping, g);
    }
  }

  lemma {:induction false} GroupZoneSumAppend(a: Vector, b: Vector, z: string, grouping: set<string>, g: LabelSet)
    ensures GroupZoneSum(a + b, z, grouping, g) == GroupZoneSum(a, z, grouping, g) + GroupZoneSum(b, z, grouping, g)
  {
    if a == [] {
      assert a + b == b;
    } else {
      assert (a + b)[1..] == a[1..] + b;
      GroupZoneSumAppend(a[1..], b, z, grouping, g);
    }
  }

  /** The `psys` and `package` parts of the SoC vector never share a label set:
      their `zone` labels differ. */
  lemma SocVectorSplits(u: Vector, psys: Vector)
    ensures SocVector(u, psys)
         == AndOnNode(Select(u, Zone, Psys), psys) + UnlessOnNode(Select(u, Zone, Package), psys)
  {
    OrDisjoint(AndOnNode(Select(u, Zone, Psys), psys), UnlessOnNode(Select(u, Zone, Package), psys),
               Zone, Psys, Package);
  }

  /** Summing the SoC vector by a grouping that includes `node_name` gives each
      group its reference SoC power, and has a group exactly when the rail the
      group's node uses has a reading in it. */
  lemma SocGroups(u: Vector, psys: Vector, grouping: set<string>, g: LabelSet)
    requires NodeName in grouping
    ensures g in SumBy(SocVector(u, psys), grouping) <==> GroupHasSoc(u, NodeKeys(psys), grouping, g)
    ensures g in SumBy(SocVector(u, psys), grouping)
        ==> SumBy(SocVector(u, psys), grouping)[g] == GroupSoc(u, NodeKeys(psys), grouping, g)
  {
    var keys := NodeKeys(psys);
    var a := WhereNode(Select(u, Zone, Psys), keys, true);
    var b := WhereNode(Select(u, Zone, Package), keys, false);
    var x := SocVector(u, psys);
    SocVectorSplits(u, psys);
    SumByMeaning(x, grouping);
    SumKeyAppend(a, b, grouping, g);
    SumKeyWhereNode(Select(u, Zone, Psys), keys, true, grouping, g);
    SumKeyWhereNode(Select(u, Zone, Package), keys, false, grouping, g);
    SumKeySelect(u, Psys, grouping, g);
    SumKeySelect(u, Package, grouping, g);
    if g in SumBy(x, grouping) {
      var s :| s in x && Project(s.metric, grouping) == g;
      ProjectLabel(s.metric, grouping, NodeName);
      assert s in a || s in b;
    }
    if GroupHasSoc(u, keys, grouping, g) {
      var z := if Label(g, NodeName) in keys then Psys else Package;
      var s :| s in u && ZoneOf(s) == z && Project(s.metric, grouping) == g;
      ProjectLabel(s.metric, grouping, NodeName);
      assert s in a || s in b;
      assert s in x;
    }
  }

  /** Summing the `dram` readings by a grouping gives each group its `dram` total. */
  lemma DramGroups(u: Vector, grouping: set<string>, g: LabelSet)
    ensures g in SumBy(Select(u, Zone, Dram), grouping) <==> GroupHasZone(u, Dram, grouping, g)
    ensures g in SumBy(Select(u, Zone, Dram), grouping)
        ==> SumBy(Select(u, Zone, Dram), grouping)[g] == GroupZoneSum(u, Dram, grouping, g)
  {
    SumByMeaning(Select(u, Zone, Dram), grouping);
    SumKeySelect(u, Dram, grouping, g);
    if GroupHasZone(u, Dram, grouping, g) {
      var s :| s in u && ZoneOf(s) == Dram && Project(s.metric, grouping) == g;
      assert s in Select(u, Zone, Dram);
    }
  }

  /** `(sum by (...) (soc) or vector(0)) + (sum by (...) (dram) or vector(0))`,
      as the queries write it. */
  function AddedOrZero(soc: Grouped, dram: Grouped): Grouped
  {
    Plus(OrVector0(soc), OrVector0(dram))
  }

  /** The evidently intended combination: `(soc + dram) or soc or dram`, which
      keeps a group that only one side has. */
  function AddedEither(soc: Grouped, dram: Grouped): Grouped
  {
    OrGrouped(OrGrouped(Plus(soc, dram), soc), dram)
  }

  /** As written, a labelled group survives the `+` only when both sides have it:
      `or vector(0)` supplies only the label-less group. The label-less group is
      always there. */
  lemma AddedOrZeroAt(soc: Grouped, dram: Grouped, g: LabelSet)
    ensures g in AddedOrZero(soc, dram) <==> g == NoLabels || (g in soc && g in dram)
    ensures g in AddedOrZero(soc, dram) ==>
      AddedOrZero(soc, dram)[g] == (if g in soc then soc[g] else 0.0) + (if g in dram then dram[g] else 0.0)
  {
  }

  /** Corrected, every group either side has is kept, a missing side counting as 0. */
  lemma AddedEitherAt(soc: Grouped, dram: Grouped, g: LabelSet)
    ensures g in AddedEither(soc, dram) <==> g in soc || g in dram
    ensures g in AddedEither(soc, dram) ==>
      AddedEither(soc, dram)[g] == (if g in soc then soc[g] else 0.0) + (if g in dram then dram[g] else 0.0)
  {
  }

  /** Either combination at one group, given what each side holds there (`soc`
      and `dram` stand for 0 on a side that lacks the group). */
  lemma EitherAt(socs: Grouped, drams: Grouped, g: LabelSet, soc: real, dram: real)
    requires g in socs ==> socs[g] == soc
    requires g !in socs ==> soc == 0.0
    requires g in drams ==> drams[g] == dram
    requires g !in drams ==> dram == 0.0
    ensures g in AddedEither(socs, drams) <==> g in socs || g in drams
    ensures g in AddedEither(socs, drams) ==> AddedEither(socs, drams)[g] == soc + dram
  {
    AddedEitherAt(socs, drams, g);
  }

  lemma OrZeroAt(socs: Grouped, drams: Grouped, g: LabelSet, soc: real, dram: real)
    requires g in socs ==> socs[g] == soc
    requires g !in socs ==> soc == 0.0
    requires g in drams ==> drams[g] == dram
    requires g !in drams ==> dram == 0.0
    ensures g in AddedOrZero(socs, drams) <==> g == NoLabels || (g in socs && g in drams)
    ensures g in AddedOrZero(socs, drams) ==> AddedOrZero(socs, drams)[g] == soc + dram
  {
    AddedOrZeroAt(socs, drams, g);
  }
}
