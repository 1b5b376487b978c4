/** back/src/dashboard/environments.ts: one row per environment name. */
module Environments {
  import opened Grouping
  import opened InsertionMaps
  import opened Lists
  import opened Names
  import opened Options
  import opened Sorting
  import opened Sums

  type Attributes = map<string, string>

  datatype Deployment = Deployment(
    repo: string,
    environment: string,
    createdAt: int,
    status: string,
    ref: string,
    attributes: Attributes,
    metaEnvironments: seq<string>
  )

  /** `repo` is empty when it belongs to none. */
  datatype Declaration = Declaration(repo: string, environment: string, attributes: Attributes)

  datatype Row = Row(
    name: string,
    attributes: Attributes,
    metaEnvironments: seq<string>,
    repos: seq<string>,
    deployments: nat,
    lastDeployAt: Option<int>,
    lastStatus: Option<string>,
    ref: Option<string>,
    declared: bool,
    recent: seq<string>
  )

  const ENVIRONMENT_RECENT_MAX := 11

  function EnvironmentOf(d: Deployment): string { d.environment }

  function DeclaredName(d: Declaration): string { d.environment }

  function CreatedAt(d: Deployment): real { d.createdAt as real }

  function StatusOf(d: Deployment): string { d.status }

  // ─── What deployments agree on ───

  predicate States(d: Deployment, key: string, value: string) {
    key in d.attributes && d.attributes[key] == value
  }

  ghost predicate Stated(deployments: seq<Deployment>, key: string, value: string) {
    exists d :: d in deployments && States(d, key, value)
  }

  /** Some deployment says so and none says otherwise; one that is silent contradicts nothing. */
  ghost predicate Agreed(deployments: seq<Deployment>, key: string, value: string) {
    Stated(deployments, key, value) && forall v :: Stated(deployments, key, v) ==> v == value
  }

  /** A claim is what was said of a key so far; None marks a contradiction, which never comes back. */
  type Claims = map<string, Option<string>>

  ghost predicate ClaimsOf(claims: Claims, deployments: seq<Deployment>) {
    forall key ::
      if key !in claims then forall v :: !Stated(deployments, key, v)
      else match claims[key]
           case Some(value) => Agreed(deployments, key, value)
           case None => exists v, u :: v != u && Stated(deployments, key, v) && Stated(deployments, key, u)
  }

  function Claim(claims: Claims, key: string, value: string): Claims {
    if key !in claims then claims[key := Some(value)]
    else if claims[key] != Some(value) then claims[key := None]
    else claims
  }

  method AddClaims(held: Claims, d: Deployment) returns (claims: Claims)
    ensures forall key :: Get(claims, key) == if key in d.attributes then Get(Claim(held, key, d.attributes[key]), key)
                                              else Get(held, key)
  {
    claims := held;
    var left := d.attributes.Keys;
    while left != {}
      invariant left <= d.attributes.Keys
      invariant forall key ::
        Get(claims, key) == if key in d.attributes && key !in left then Get(Claim(held, key, d.attributes[key]), key)
                            else Get(held, key)
      decreases |left|
    {
      var key :| key in left;
      left := left - {key};
      assert Get(claims, key) == Get(held, key);
      claims := Claim(claims, key, d.attributes[key]);
    }
  }

  lemma ClaimsNext(held: Claims, claims: Claims, before: seq<Deployment>, d: Deployment)
    requires ClaimsOf(held, before)
    requires forall key :: Get(claims, key) == if key in d.attributes then Get(Claim(held, key, d.attributes[key]), key)
                                               else Get(held, key)
    ensures ClaimsOf(claims, before + [d])
  {
    forall key, v ensures Stated(before + [d], key, v) <==> Stated(before, key, v) || States(d, key, v) {
      assert d in before + [d];
      assert forall e :: e in before + [d] <==> e in before || e == d;
    }
    forall key
      ensures if key !in claims then forall v :: !Stated(before + [d], key, v)
        else match claims[key]
           case Some(value) => Agreed(before + [d], key, value)
           case None => exists v, u :: v != u && Stated(before + [d], key, v) && Stated(before + [d], key, u)
    {
      assert Get(claims, key) == if key in d.attributes then Get(Claim(held, key, d.attributes[key]), key)
                                 else Get(held, key);
      if key in d.attributes && key in held && held[key] != Some(d.attributes[key]) && held[key].Some? {
        assert Stated(before + [d], key, held[key].value) && Stated(before + [d], key, d.attributes[key]);
      }
    }
  }

  /** Exactly the keys agreed on, each with the value agreed on. */
  ghost predicate HoldsAgreed(attributes: Attributes, deployments: seq<Deployment>) {
    && (forall key :: key in attributes ==> Agreed(deployments, key, attributes[key]))
    && (forall key, value :: Agreed(deployments, key, value) ==> key in attributes)
  }

  method AgreedAttributes(deployments: seq<Deployment>) returns (agreed: Attributes)
    ensures HoldsAgreed(agreed, deployments)
  {
    var claims: Claims := map[];
    for i := 0 to |deployments|
      invariant ClaimsOf(claims, deployments[..i])
    {
      var next := AddClaims(claims, deployments[i]);
      ClaimsNext(claims, next, deployments[..i], deployments[i]);
      assert deployments[..i + 1] == deployments[..i] + [deployments[i]];
      claims := next;
    }
    assert deployments[..|deployments|] == deployments;
    agreed := map key | key in claims && claims[key].Some? :: claims[key].value;
    forall key, value | Agreed(deployments, key, value) ensures key in agreed {
      assert Stated(deployments, key, value);
    }
  }

  // ─── Rows ───

  function MetaOf(deployments: seq<Deployment>): set<string> {
    set d, m | d in deployments && m in d.metaEnvironments :: m
  }

  function ReposOf(deployments: seq<Deployment>): set<string> {
    set d | d in deployments :: d.repo
  }

  function Recent(byDate: seq<Deployment>): seq<string> {
    Map(if |byDate| <= ENVIRONMENT_RECENT_MAX then byDate else byDate[|byDate| - ENVIRONMENT_RECENT_MAX..], StatusOf)
  }

  /** The deployment at `i` is the last read of those made last. */
  predicate IsLatest(items: seq<Deployment>, i: int) {
    && 0 <= i < |items|
    && (forall j :: 0 <= j < |items| ==> items[j].createdAt <= items[i].createdAt)
    && (forall j :: i < j < |items| ==> items[j].createdAt < items[i].createdAt)
  }

  ghost predicate SaysLatest(row: Row, items: seq<Deployment>) {
    exists i :: IsLatest(items, i) && row.lastDeployAt == Some(items[i].createdAt)
                && row.lastStatus == Some(items[i].status)
                && row.ref == Some(items[i].ref)
  }

  /** The end of the dated order is the last read of those made last: the sort is stable. */
  lemma EndOfOrderIsLatest(items: seq<Deployment>)
    requires items != []
    ensures var byDate := Sort(items, CreatedAt);
      byDate != [] && exists i :: IsLatest(items, i) && items[i] == byDate[|byDate| - 1]
  {
    var byDate := Sort(items, CreatedAt);
    assert byDate != [] by { SortSorts(items, CreatedAt); }
    var latest := byDate[|byDate| - 1];
    var kept := Filter(items, OfRank(CreatedAt, CreatedAt(latest)));
    assert kept != [] && kept[|kept| - 1] == latest by {
      LastOfOrder(byDate, OfRank(CreatedAt, CreatedAt(latest)));
      SortIsStable(items, CreatedAt, CreatedAt(latest));
    }
    EveryoneBefore(items, latest);
    LastOfItsDate(items, latest);
  }

  lemma LastOfItsDate(items: seq<Deployment>, latest: Deployment)
    requires forall d :: d in items ==> d.createdAt <= latest.createdAt
    requires var kept := Filter(items, OfRank(CreatedAt, CreatedAt(latest))); kept != [] && kept[|kept| - 1] == latest
    ensures exists i :: IsLatest(items, i) && items[i] == latest
  {
    var atLatest := OfRank(CreatedAt, CreatedAt(latest));
    FilterEnds(items, atLatest);
    var i :| 0 <= i < |items| && IsLastKept(items, atLatest, i);
    forall j | 0 <= j < |items|
      ensures items[j].createdAt <= items[i].createdAt && (i < j ==> items[j].createdAt < items[i].createdAt)
    {
      assert items[j] in items;
      assert i < j ==> !atLatest(items[j]) && CreatedAt(items[j]) != CreatedAt(latest);
    }
    assert IsLatest(items, i);
  }

  lemma EveryoneBefore(items: seq<Deployment>, latest: Deployment)
    requires var byDate := Sort(items, CreatedAt); byDate != [] && latest == byDate[|byDate| - 1]
    ensures forall d :: d in items ==> d.createdAt <= latest.createdAt
  {
    var byDate := Sort(items, CreatedAt);
    SortSorts(items, CreatedAt);
    forall d | d in items ensures d.createdAt <= latest.createdAt {
      var i :| 0 <= i < |byDate| && byDate[i] == d;
      assert i < |byDate| - 1 ==> CreatedAt(byDate[i]) <= CreatedAt(latest);
    }
  }

  lemma LastOfOrder<T(!new)>(s: seq<T>, keep: T -> bool)
    requires s != [] && keep(s[|s| - 1])
    ensures var kept := Filter(s, keep); kept != [] && kept[|kept| - 1] == s[|s| - 1]
  {
    assert s == s[..|s| - 1] + [s[|s| - 1]];
    FilterSnoc(s[..|s| - 1], s[|s| - 1], keep);
  }

  /** By date, and at one date as they were read. */
  ghost predicate IsDated(dated: seq<Deployment>, items: seq<Deployment>) {
    && multiset(dated) == multiset(items)
    && forall p, q :: 0 <= p < q < |dated| ==>
         dated[p].createdAt < dated[q].createdAt
         || (dated[p].createdAt == dated[q].createdAt && Precedes(items, dated[p], dated[q]))
  }

  /** The statuses of the last eleven, or of all where there are fewer, oldest first. */
  ghost predicate IsTail(recent: seq<string>, items: seq<Deployment>) {
    && |recent| == (if |items| < 11 then |items| else 11)
    && exists dated :: IsDated(dated, items) && EndsWithStatuses(dated, recent)
  }

  predicate EndsWithStatuses(dated: seq<Deployment>, recent: seq<string>) {
    |recent| <= |dated| && forall i :: 0 <= i < |recent| ==> recent[i] == dated[|dated| - |recent| + i].status
  }

  lemma RecentIsTail(items: seq<Deployment>)
    ensures IsTail(Recent(Sort(items, CreatedAt)), items)
  {
    var dated, recent := Sort(items, CreatedAt), Recent(Sort(items, CreatedAt));
    SortSorts(items, CreatedAt);
    forall p, q | 0 <= p < q < |dated|
      ensures dated[p].createdAt < dated[q].createdAt
           || (dated[p].createdAt == dated[q].createdAt && Precedes(items, dated[p], dated[q]))
    {
      SortKeepsTies(items, CreatedAt, p, q);
    }
    assert IsDated(dated, items);
    var kept := if |dated| <= 11 then dated else dated[|dated| - 11..];
    forall i | 0 <= i < |recent| ensures recent[i] == dated[|dated| - |recent| + i].status {
      assert recent[i] == StatusOf(kept[i]);
    }
  }

  /** Everything a deployed row says, in terms of the deployments of its name. */
  ghost predicate Describes(row: Row, items: seq<Deployment>) {
    && !row.declared
    && HoldsAgreed(row.attributes, items)
    && IsListOf(row.metaEnvironments, MetaOf(items))
    && IsListOf(row.repos, ReposOf(items))
    && row.deployments == |items|
    && SaysLatest(row, items)
    && row.recent == Recent(Sort(items, CreatedAt))
  }

  function RepoOf(d: Deployment): string { d.repo }

  function MetaEnvironmentsOf(d: Deployment): seq<string> { d.metaEnvironments }

  /** A JavaScript `Set` of what the deployments carry, then sorted. */
  function AgreedMeta(items: seq<Deployment>): seq<string> {
    SortNames(FirstSeen(FlatMap(items, MetaEnvironmentsOf), Self))
  }

  function RepoNames(items: seq<Deployment>): seq<string> {
    SortNames(FirstSeen(items, RepoOf))
  }

  lemma MetaIsUnion(items: seq<Deployment>)
    ensures IsListOf(AgreedMeta(items), MetaOf(items))
  {
    var all := FlatMap(items, MetaEnvironmentsOf);
    SortNamesLists(FirstSeen(all, Self));
    InFlatMap(items, MetaEnvironmentsOf);
    assert forall m :: m in FirstSeen(all, Self) <==> m in all by {
      forall m | m in all ensures m in FirstSeen(all, Self) { assert Self(m) in FirstSeen(all, Self); }
    }
    forall m ensures m in all <==> m in MetaOf(items) {
      if m in all {
        var d :| d in items && m in MetaEnvironmentsOf(d);
      }
      if m in MetaOf(items) {
        var d :| d in items && m in d.metaEnvironments;
        assert m in MetaEnvironmentsOf(d);
      }
    }
  }

  lemma ReposAreUnion(items: seq<Deployment>)
    ensures IsListOf(RepoNames(items), ReposOf(items))
  {
    SortNamesLists(FirstSeen(items, RepoOf));
    forall r ensures r in FirstSeen(items, RepoOf) <==> r in ReposOf(items) {
      if r in ReposOf(items) {
        var d :| d in items && d.repo == r;
        assert RepoOf(d) in FirstSeen(items, RepoOf);
      }
    }
  }

  /** The tail a described row shows is that of its deployments in dated order. */
  lemma DescribedTail(row: Row, items: seq<Deployment>)
    requires Describes(row, items)
    ensures IsTail(row.recent, items)
  {
    RecentIsTail(items);
  }

  method DeployedRow(name: string, items: seq<Deployment>) returns (row: Row)
    requires items != []
    ensures row.name == name && Describes(row, items)
  {
    var byDate := Sort(items, CreatedAt);
    EndOfOrderIsLatest(items);
    var latest := byDate[|byDate| - 1];
    MetaIsUnion(items);
    ReposAreUnion(items);
    var attributes := AgreedAttributes(items);
    row := Row(name, attributes, AgreedMeta(items), RepoNames(items), |items|, Some(latest.createdAt),
               Some(latest.status),
               Some(latest.ref), false, Recent(byDate));
  }

  /** The names nothing was deployed to, declared; the last declaration of a name is the one kept. */
  function Undeployed(declared: seq<Declaration>, deployed: set<string>): seq<Declaration> {
    Filter(declared, IsUndeployed(deployed))
  }

  function IsUndeployed(deployed: set<string>): Declaration -> bool { (d: Declaration) => d.environment !in deployed }

  function DeclaredRow(d: Declaration): Row {
    Row(d.environment, d.attributes, [], if d.repo != "" then [d.repo] else [], 0, None, None, None, true, [])
  }

  function NameOf(row: Row): string { row.name }

  lemma RowNames(rows: seq<Row>, names: seq<string>)
    requires |rows| == |names| && forall i :: 0 <= i < |rows| ==> rows[i].name == names[i]
    ensures Map(rows, NameOf) == names
  {
  }

  /** What is declared of one name, in the order it was read. */
  function DeclaredAs(unseen: seq<Declaration>, name: string): seq<Declaration> {
    Filter(unseen, Keyed(DeclaredName, name))
  }

  /** One row per undeployed name, in order of first appearance, saying what its last declaration says. */
  ghost predicate DeclaresFrom(rows: seq<Row>, unseen: seq<Declaration>) {
    && Map(rows, NameOf) == FirstSeen(unseen, DeclaredName)
    && forall row :: row in rows ==> SaysLast(row, unseen)
  }

  predicate SaysLast(row: Row, unseen: seq<Declaration>) {
    var all := DeclaredAs(unseen, row.name);
    all != [] && row == DeclaredRow(all[|all| - 1]) && SaysDeclared(row, all[|all| - 1])
  }

  /** A declared row states what was declared, its repository if any, and nothing of deployments. */
  predicate SaysDeclared(row: Row, d: Declaration) {
    && row.name == d.environment && row.attributes == d.attributes && row.metaEnvironments == [] && row.declared
    && row.repos == (if d.repo == "" then [] else [d.repo])
    && row.deployments == 0 && row.recent == []
    && row.lastDeployAt == None && row.lastStatus == None && row.ref == None
  }

  predicate IsLast(d: Declaration, unseen: seq<Declaration>, name: string) {
    var all := DeclaredAs(unseen, name);
    all != [] && d == all[|all| - 1]
  }

  /** The declarations by name, the last of a name being kept in the place of its first. */
  ghost predicate KeepsOnePerName(m: InsertionMap<string, Declaration>, unseen: seq<Declaration>) {
    && m.Valid() && m.keys == FirstSeen(unseen, DeclaredName)
    && forall name :: name in m.at ==> IsLast(m.at[name], unseen, name)
  }

  lemma PutKeepsOnePerName(m: InsertionMap<string, Declaration>, unseen: seq<Declaration>, d: Declaration)
    requires KeepsOnePerName(m, unseen)
    ensures KeepsOnePerName(m.Put(d.environment, d), unseen + [d])
  {
    FirstSeenSnoc(unseen, d, DeclaredName);
    PutKeepsLast(m, unseen, d);
  }

  lemma PutKeepsLast(m: InsertionMap<string, Declaration>, unseen: seq<Declaration>, d: Declaration)
    requires m.Valid() && forall name :: name in m.at ==> IsLast(m.at[name], unseen, name)
    ensures var next := m.Put(d.environment, d); forall name :: name in next.at ==>
        IsLast(next.at[name], unseen + [d], name)
  {
    var next := m.Put(d.environment, d);
    forall name | name in next.at ensures IsLast(next.at[name], unseen + [d], name) {
      DeclaredNext(unseen, d, name);
    }
  }

  lemma DeclaredNext(unseen: seq<Declaration>, d: Declaration, name: string)
    ensures d.environment == name ==> IsLast(d, unseen + [d], name)
    ensures d.environment != name ==> forall e :: IsLast(e, unseen, name) ==> IsLast(e, unseen + [d], name)
  {
    FilterSnoc(unseen, d, Keyed(DeclaredName, name));
    assert DeclaredAs(unseen + [d], name) == DeclaredAs(unseen, name) + if DeclaredName(d) == name then [d] else [];
  }

  method ByName(unseen: seq<Declaration>) returns (byName: InsertionMap<string, Declaration>)
    ensures KeepsOnePerName(byName, unseen)
  {
    byName := EmptyMap();
    for i := 0 to |unseen|
      invariant KeepsOnePerName(byName, unseen[..i])
    {
      PutKeepsOnePerName(byName, unseen[..i], unseen[i]);
      PrefixNext(unseen, i);
      byName := byName.Put(unseen[i].environment, unseen[i]);
    }
    assert unseen[..|unseen|] == unseen;
  }

  lemma LastIsOfItsName(d: Declaration, unseen: seq<Declaration>, name: string)
    requires IsLast(d, unseen, name)
    ensures d in unseen && d.environment == name && SaysLast(DeclaredRow(d), unseen)
  {
    assert d in DeclaredAs(unseen, name);
    assert Keyed(DeclaredName, name)(d);
  }

  method DeclaredRows(declared: seq<Declaration>, deployed: set<string>) returns (rows: seq<Row>)
    ensures DeclaresFrom(rows, Undeployed(declared, deployed))
  {
    var byName := ByName(Undeployed(declared, deployed));
    rows := RowsDeclared(byName, Undeployed(declared, deployed));
  }

  method RowsDeclared(byName: InsertionMap<string, Declaration>, ghost unseen: seq<Declaration>)
    returns (rows: seq<Row>)
    requires KeepsOnePerName(byName, unseen)
    ensures DeclaresFrom(rows, unseen)
  {
    rows := [];
    for i := 0 to |byName.keys|
      invariant RowsFor(rows, unseen, byName.keys[..i])
    {
      var d := byName.at[byName.keys[i]];
      LastIsOfItsName(d, unseen, byName.keys[i]);
      PrefixNext(byName.keys, i);
      OneMoreRow(rows, unseen, byName.keys[..i], DeclaredRow(d), byName.keys[i]);
      rows := rows + [DeclaredRow(d)];
    }
    assert byName.keys[..|byName.keys|] == byName.keys;
    RowNames(rows, byName.keys);
  }

  predicate IsRowFor(row: Row, unseen: seq<Declaration>, name: string) {
    row.name == name && SaysLast(row, unseen)
  }

  ghost predicate RowsFor(rows: seq<Row>, unseen: seq<Declaration>, names: seq<string>) {
    |rows| == |names| && forall j :: 0 <= j < |rows| ==> IsRowFor(rows[j], unseen, names[j])
  }

  lemma OneMoreRow(rows: seq<Row>, unseen: seq<Declaration>, names: seq<string>, row: Row, name: string)
    requires RowsFor(rows, unseen, names) && IsRowFor(row, unseen, name)
    ensures RowsFor(rows + [row], unseen, names + [name])
  {
  }

  /** Most recent first; a declared row has no place on the timeline. */
  function Recency(row: Row): real {
    if row.lastDeployAt.Some? then -(row.lastDeployAt.value as real) else 0.0
  }

  /** One described row per deployed name, whatever their order. */
  ghost predicate RowsOf(rows: seq<Row>, deployments: seq<Deployment>) {
    && (forall i, j :: 0 <= i < j < |rows| ==> rows[i].name != rows[j].name)
    && (forall row :: row in rows ==> Describes(row, Filter(deployments, Keyed(EnvironmentOf, row.name))))
    && (forall d :: d in deployments ==> exists row :: row in rows && row.name == d.environment)
  }

  method RowsByName(byName: InsertionMap<string, seq<Deployment>>) returns (rows: seq<Row>)
    requires byName.Valid() && forall name :: name in byName.at ==> byName.at[name] != []
    ensures DescribeNames(rows, byName, byName.keys)
  {
    rows := [];
    for i := 0 to |byName.keys|
      invariant DescribeNames(rows, byName, byName.keys[..i])
    {
      var row := DeployedRow(byName.keys[i], byName.at[byName.keys[i]]);
      PrefixNext(byName.keys, i);
      DescribesOneMore(rows, byName, byName.keys[..i], row, byName.keys[i]);
      rows := rows + [row];
    }
    assert byName.keys[..|byName.keys|] == byName.keys;
  }

  ghost predicate DescribeNames(rows: seq<Row>, byName: InsertionMap<string, seq<Deployment>>, names: seq<string>) {
    |rows| == |names| && forall j :: 0 <= j < |rows| ==> DescribesName(rows[j], byName, names[j])
  }

  lemma DescribesOneMore(rows: seq<Row>, byName: InsertionMap<string, seq<Deployment>>, names: seq<string>, row: Row,
                         name: string)
    requires DescribeNames(rows, byName, names) && DescribesName(row, byName, name)
    ensures DescribeNames(rows + [row], byName, names + [name])
  {
  }

  ghost predicate DescribesName(row: Row, byName: InsertionMap<string, seq<Deployment>>, name: string) {
    row.name == name && name in byName.at && Describes(row, byName.at[name])
  }

  method DeployedRows(deployments: seq<Deployment>) returns (rows: seq<Row>, names: set<string>)
    ensures Map(rows, NameOf) == FirstSeen(deployments, EnvironmentOf)
    ensures forall row :: row in rows ==> Describes(row, Filter(deployments, Keyed(EnvironmentOf, row.name)))
    ensures names == set d | d in deployments :: d.environment
  {
    var byName := GroupBy(deployments, EnvironmentOf);
    forall name | name in byName.at ensures byName.at[name] != [] {
      GroupsAreNotEmpty(deployments, EnvironmentOf, name);
    }
    names := set name | name in byName.keys;
    NamesDeployed(deployments, names);
    rows := RowsByName(byName);
    RowNames(rows, byName.keys);
    forall row | row in rows ensures Describes(row, Filter(deployments, Keyed(EnvironmentOf, row.name))) {
      var j :| 0 <= j < |rows| && rows[j] == row;
      assert DescribesName(rows[j], byName, byName.keys[j]);
    }
  }

  lemma NamesDeployed(deployments: seq<Deployment>, names: set<string>)
    requires names == set name | name in FirstSeen(deployments, EnvironmentOf)
    ensures names == set d | d in deployments :: d.environment
  {
    forall d | d in deployments ensures d.environment in names {
      assert EnvironmentOf(d) in FirstSeen(deployments, EnvironmentOf);
    }
  }

  /**
   * The rows of a fold: those deployed to, newest first, then the declared ones
   * that no deployment accounts for. A stable sort that puts rows without a date
   * last leaves them in order behind the sorted rest.
   */
  method FoldEnvironments(deployments: seq<Deployment>, declared: seq<Declaration>)
    returns (rows: seq<Row>, ghost split: nat)
    ensures split <= |rows|
    ensures RowsOf(rows[..split], deployments)
    ensures Ascending(rows[..split], Recency)
    ensures DeclaresFrom(rows[split..], Undeployed(declared, set d | d in deployments :: d.environment))
    ensures forall i, j :: 0 <= i < j < |rows| ==> ByLastDeploy(rows[i], rows[j]) <= 0
    ensures NewestFirst(rows)
  {
    var deployedRows, names := DeployedRows(deployments);
    var undeployed := DeclaredRows(declared, names);
    rows := Sort(deployedRows, Recency) + undeployed;
    split := |deployedRows|;
    SortSorts(deployedRows, Recency);
    assert rows[..split] == Sort(deployedRows, Recency) && rows[split..] == undeployed;
    SortedNames(deployedRows, deployments);
    RowsInOrder(Sort(deployedRows, Recency), undeployed);
    ComparedIsNewestFirst(rows);
  }

  /** Dated rows from the latest on, then those without a date. */
  predicate NewestFirst(rows: seq<Row>) {
    forall i, j :: 0 <= i < j < |rows| && rows[j].lastDeployAt.Some? ==>
      rows[i].lastDeployAt.Some? && rows[i].lastDeployAt.value >= rows[j].lastDeployAt.value
  }

  lemma ComparedIsNewestFirst(rows: seq<Row>)
    requires forall i, j :: 0 <= i < j < |rows| ==> ByLastDeploy(rows[i], rows[j]) <= 0
    ensures NewestFirst(rows)
  {
    forall i, j | 0 <= i < j < |rows| && rows[j].lastDeployAt.Some?
      ensures rows[i].lastDeployAt.Some? && rows[i].lastDeployAt.value >= rows[j].lastDeployAt.value
    {
      assert ByLastDeploy(rows[i], rows[j]) <= 0;
    }
  }

  /** The comparison the rows are sorted by: negative puts `a` first. */
  function ByLastDeploy(a: Row, b: Row): int {
    if a.lastDeployAt.None? || b.lastDeployAt.None? then
      (if a.lastDeployAt.None? then 1 else 0) - (if b.lastDeployAt.None? then 1 else 0)
    else b.lastDeployAt.value - a.lastDeployAt.value
  }

  lemma RowsInOrder(dated: seq<Row>, undated: seq<Row>)
    requires Ascending(dated, Recency)
    requires forall row :: row in dated ==> row.lastDeployAt.Some?
    requires forall row :: row in undated ==> row.lastDeployAt.None?
    ensures var rows := dated + undated; forall i, j :: 0 <= i < j < |rows| ==> ByLastDeploy(rows[i], rows[j]) <= 0
  {
    var rows := dated + undated;
    assert forall i :: 0 <= i < |dated| ==> rows[i] == dated[i] && dated[i] in dated;
    assert forall i :: |dated| <= i < |rows| ==> rows[i] in undated;
    forall i, j | 0 <= i < j < |rows| ensures ByLastDeploy(rows[i], rows[j]) <= 0 {
      if j < |dated| {
        assert Recency(dated[i]) <= Recency(dated[j]);
      }
    }
  }

  /** Sorting keeps the rows' names: still one each, still every name deployed to. */
  lemma SortedNames(unsorted: seq<Row>, deployments: seq<Deployment>)
    requires Map(unsorted, NameOf) == FirstSeen(deployments, EnvironmentOf)
    ensures var rows := Sort(unsorted, Recency);
      && (forall row :: row in rows <==> row in unsorted)
      && (forall i, j :: 0 <= i < j < |rows| ==> rows[i].name != rows[j].name)
      && (forall d :: d in deployments ==> exists row :: row in rows && row.name == d.environment)
  {
    var rows, names := Sort(unsorted, Recency), Map(unsorted, NameOf);
    SortSorts(unsorted, Recency);
    forall i, j | 0 <= i < j < |unsorted| ensures unsorted[i].name != unsorted[j].name {
      assert names[i] != names[j];
    }
    DistinctNamesOfPermutation(unsorted, rows);
    forall d | d in deployments ensures exists row :: row in rows && row.name == d.environment {
      assert EnvironmentOf(d) in names;
      var i :| 0 <= i < |names| && names[i] == d.environment;
      assert unsorted[i] in rows;
    }
  }

  /** Distinct names are a property of the rows, not of their order. */
  lemma DistinctNamesOfPermutation(a: seq<Row>, b: seq<Row>)
    requires multiset(a) == multiset(b)
    requires forall i, j :: 0 <= i < j < |a| ==> a[i].name != a[j].name
    ensures forall i, j :: 0 <= i < j < |b| ==> b[i].name != b[j].name
  {
    forall i, j | 0 <= i < j < |b| ensures b[i].name != b[j].name {
      if b[i].name == b[j].name {
        assert b[i] in multiset(a) && b[j] in multiset(a);
        var k :| 0 <= k < |a| && a[k] == b[i];
        var l :| 0 <= l < |a| && a[l] == b[j];
        assert k == l;
        CountedOnce(a, k);
        CountedTwice(b, i, j);
      }
    }
  }

  lemma CountedOnce(a: seq<Row>, k: nat)
    requires k < |a| && forall i, j :: 0 <= i < j < |a| ==> a[i].name != a[j].name
    ensures multiset(a)[a[k]] == 1
  {
    assert a == a[..k] + [a[k]] + a[k + 1..];
    assert a[k] !in a[..k] && a[k] !in a[k + 1..];
  }

  lemma CountedTwice(b: seq<Row>, i: nat, j: nat)
    requires i < j < |b| && b[i] == b[j]
    ensures multiset(b)[b[i]] >= 2
  {
    assert b == b[..i] + [b[i]] + b[i + 1..j] + [b[j]] + b[j + 1..];
  }

  // ─── What a fold conserves ───

  function CountOf(row: Row): real { row.deployments as real }

  /** The rows partition the deployments: their counts add up to the input. */
  lemma CountsAddUp(rows: seq<Row>, deployments: seq<Deployment>)
    requires RowsOf(rows, deployments)
    ensures Sum(rows, CountOf) == |deployments| as real
  {
    assert forall row :: row in rows ==> row.deployments == |Filter(deployments, Keyed(EnvironmentOf, row.name))|;
    PartitionAddsUp(rows, deployments);
  }

  lemma {:induction false} PartitionAddsUp(rows: seq<Row>, deployments: seq<Deployment>)
    requires forall i, j :: 0 <= i < j < |rows| ==> rows[i].name != rows[j].name
    requires forall row :: row in rows ==> row.deployments == |Filter(deployments, Keyed(EnvironmentOf, row.name))|
    requires forall d :: d in deployments ==> exists row :: row in rows && row.name == d.environment
    ensures Sum(rows, CountOf) == |deployments| as real
  {
    var names := Map(rows, NameOf);
    RowsCountGroups(rows, deployments);
    SumByGroups(names, deployments, EnvironmentOf, One);
    EveryNameHasItsRow(rows, deployments);
    FilterAll(deployments, KeyIn(EnvironmentOf, names));
    SumOfOnes(deployments);
  }

  lemma RowsCountGroups(rows: seq<Row>, deployments: seq<Deployment>)
    requires forall row :: row in rows ==> row.deployments == |Filter(deployments, Keyed(EnvironmentOf, row.name))|
    ensures Sum(rows, CountOf) == Sum(Map(rows, NameOf), GroupWeight(deployments, EnvironmentOf, One))
  {
    var weight := GroupWeight(deployments, EnvironmentOf, One);
    SumMap(rows, NameOf, weight);
    forall row | row in rows ensures CountOf(row) == After(NameOf, weight)(row) {
      SumOfOnes(Filter(deployments, Keyed(EnvironmentOf, row.name)));
    }
    SumAgree(rows, CountOf, After(NameOf, weight));
  }

  lemma EveryNameHasItsRow(rows: seq<Row>, deployments: seq<Deployment>)
    requires forall d :: d in deployments ==> exists row :: row in rows && row.name == d.environment
    ensures forall d :: d in deployments ==> KeyIn(EnvironmentOf, Map(rows, NameOf))(d)
  {
    forall d | d in deployments ensures KeyIn(EnvironmentOf, Map(rows, NameOf))(d) {
      var i :| 0 <= i < |rows| && rows[i].name == d.environment;
      var names := Map(rows, NameOf);
      assert names[i] == NameOf(rows[i]);
      assert EnvironmentOf(d) == names[i];
    }
  }

  /** Two rows make the same claims: what they quote of one deployment aside, which may be another of the same date. */
  predicate SameClaims(a: Row, b: Row) {
    && a.name == b.name && a.attributes == b.attributes && a.metaEnvironments == b.metaEnvironments
       && a.repos == b.repos
    && a.deployments == b.deployments && a.lastDeployAt == b.lastDeployAt && a.declared == b.declared
  }

  /** The fold does not depend on the order deployments are read in: the same names, each claiming the same. */
  lemma FoldIgnoresOrder(a: seq<Row>, b: seq<Row>, deployments: seq<Deployment>, shuffled: seq<Deployment>)
    requires RowsOf(a, deployments) && RowsOf(b, shuffled)
    requires multiset(deployments) == multiset(shuffled)
    ensures forall row :: row in a ==> exists other :: other in b && SameClaims(row, other)
    ensures forall row :: row in b ==> exists other :: other in a && SameClaims(other, row)
  {
    forall row | row in a ensures exists other :: other in b && SameClaims(row, other) {
      RowIgnoresOrder(row, b, deployments, shuffled);
    }
    forall row | row in b ensures exists other :: other in a && SameClaims(other, row) {
      RowIgnoresOrder(row, a, shuffled, deployments);
    }
  }

  lemma RowIgnoresOrder(row: Row, rows: seq<Row>, deployments: seq<Deployment>, shuffled: seq<Deployment>)
    requires Describes(row, Filter(deployments, Keyed(EnvironmentOf, row.name))) && RowsOf(rows, shuffled)
    requires multiset(deployments) == multiset(shuffled)
    ensures exists other :: other in rows && SameClaims(row, other)
  {
    DescribedIsDeployed(row, deployments);
    var d :| d in deployments && d.environment == row.name;
    SameMembers(deployments, shuffled);
    var other :| other in rows && other.name == d.environment;
    FilterOfPermutation(deployments, shuffled, Keyed(EnvironmentOf, row.name));
    ClaimsIgnoreOrder(row, other, Filter(deployments, Keyed(EnvironmentOf, row.name)),
                      Filter(shuffled, Keyed(EnvironmentOf, row.name)));
  }

  /** What a row claims does not depend on the order its deployments were read in. */
  lemma ClaimsIgnoreOrder(a: Row, b: Row, items: seq<Deployment>, shuffled: seq<Deployment>)
    requires a.name == b.name && Describes(a, items) && Describes(b, shuffled)
    requires multiset(items) == multiset(shuffled)
    ensures SameClaims(a, b)
  {
    SameElementsSameSize(items, shuffled);
    SameMembers(items, shuffled);
    SameAttributes(a.attributes, b.attributes, items, shuffled);
    SameMemberships(a, b, items, shuffled);
    SameLatest(a, b, items, shuffled);
  }

  lemma SameMemberships(a: Row, b: Row, items: seq<Deployment>, others: seq<Deployment>)
    requires forall d :: d in items <==> d in others
    requires IsListOf(a.metaEnvironments, MetaOf(items)) && IsListOf(b.metaEnvironments, MetaOf(others))
    requires IsListOf(a.repos, ReposOf(items)) && IsListOf(b.repos, ReposOf(others))
    ensures a.metaEnvironments == b.metaEnvironments && a.repos == b.repos
  {
    assert MetaOf(items) == MetaOf(others) && ReposOf(items) == ReposOf(others);
    ListIsUnique(a.metaEnvironments, b.metaEnvironments);
    ListIsUnique(a.repos, b.repos);
  }

  lemma SameLatest(a: Row, b: Row, items: seq<Deployment>, others: seq<Deployment>)
    requires forall d :: d in items <==> d in others
    requires SaysLatest(a, items) && SaysLatest(b, others)
    ensures a.lastDeployAt == b.lastDeployAt
  {
    var i :| IsLatest(items, i) && a.lastDeployAt == Some(items[i].createdAt);
    var j :| IsLatest(others, j) && b.lastDeployAt == Some(others[j].createdAt);
    assert items[i] in others && others[j] in items;
  }

  /** Agreement is on what is said, by however many and in whatever order. */
  lemma SameAttributes(a: Attributes, b: Attributes, items: seq<Deployment>, others: seq<Deployment>)
    requires forall d :: d in items <==> d in others
    requires HoldsAgreed(a, items) && HoldsAgreed(b, others)
    ensures a == b
  {
    assert forall key, v :: Stated(items, key, v) <==> Stated(others, key, v);
    forall key | key in a ensures key in b && b[key] == a[key] {
      assert Agreed(others, key, a[key]);
    }
    forall key | key in b ensures key in a {
      assert Agreed(items, key, b[key]);
    }
  }

  /** A declared row is of a name nothing was deployed to, so no name has two rows. */
  lemma {:induction false} DeclaredNamesAreUndeployed(deployed: seq<Row>, undeployed: seq<Row>,
                                                      deployments: seq<Deployment>, declared: seq<Declaration>)
    requires RowsOf(deployed, deployments)
    requires DeclaresFrom(undeployed, Undeployed(declared, set d | d in deployments :: d.environment))
    ensures forall a, b :: a in deployed && b in undeployed ==> a.name != b.name && b.declared && b.deployments == 0
    ensures NoDuplicates(Map(undeployed, NameOf))
  {
    var names := set d | d in deployments :: d.environment;
    forall b | b in undeployed ensures b.declared && b.deployments == 0 && b.name !in names {
      SaidOfUndeployed(b, declared, names);
    }
    forall a | a in deployed ensures a.name in names {
      DescribedIsDeployed(a, deployments);
    }
  }

  lemma SaidOfUndeployed(row: Row, declared: seq<Declaration>, names: set<string>)
    requires SaysLast(row, Undeployed(declared, names))
    ensures row.declared && row.deployments == 0 && row.name !in names
  {
    var all := DeclaredAs(Undeployed(declared, names), row.name);
    LastIsOfItsName(all[|all| - 1], Undeployed(declared, names), row.name);
    assert IsUndeployed(names)(all[|all| - 1]);
  }

  lemma {:induction false} DescribedIsDeployed(row: Row, deployments: seq<Deployment>)
    requires Describes(row, Filter(deployments, Keyed(EnvironmentOf, row.name)))
    ensures exists e :: e in deployments && e.environment == row.name
  {
    var items := Filter(deployments, Keyed(EnvironmentOf, row.name));
    var i :| IsLatest(items, i);
    var e := items[i];
    assert e in items;
    assert Keyed(EnvironmentOf, row.name)(e);
  }
}
