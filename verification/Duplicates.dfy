/** The duplicate report (domains/stores/service.py) and why a catalogue that only grows by
    source sync never has anything to report. */
module Duplicates {
  import opened Prelude
  import opened Tables
  import opened Offers
  import opened Sync
  import opened SyncRuns

  datatype GroupKey = GroupKey(categoryId: Id, brandId: Option<Id>, identity: string)

  // Products of one category and brand whose identity reads the same are duplicates; too short
  // an identity puts a product in no group.
  function KeyOfProduct(env: Env, p: Product): Option<GroupKey> {
    match NormalizedIdentity(env, p.model, p.name)
    case None => None
    case Some(identity) => Some(GroupKey(p.categoryId, p.brandId, identity))
  }

  function InKey(env: Env, key: GroupKey): Product -> bool {
    (p: Product) => KeyOfProduct(env, p) == Some(key)
  }

  function Members(env: Env, products: seq<Product>, key: GroupKey): seq<Product> {
    Filter(products, InKey(env, key))
  }

  // A product is in the group of its category, its brand and the normalised text of its model, or of
  // its name without one, if that text has four characters or more.
  lemma GroupIs(env: Env, p: Product, key: GroupKey)
    ensures InKey(env, key)(p) <==>
              && key.categoryId == p.categoryId && key.brandId == p.brandId && |key.identity| >= 4
              && key.identity == env.identityOf(if p.model.Some? && p.model.value != "" then p.model.value else p.name)
  {
    assert IdentityText(env, p.model, p.name) ==
             env.identityOf(if p.model.Some? && p.model.value != "" then p.model.value else p.name);
  }

  // ---- resolving makes no duplicates ----

  // Every group is as it was, or was empty and now has its first member.
  ghost predicate OnlyFirstMembers(env: Env, products: seq<Product>, after: seq<Product>) {
    forall key :: GroupKept(env, products, after, key)
  }

  ghost predicate GroupKept(env: Env, products: seq<Product>, after: seq<Product>, key: GroupKey) {
    || Members(env, after, key) == Members(env, products, key)
    || (Members(env, products, key) == [] && |Members(env, after, key)| == 1)
  }

  lemma UnknownHasNoGroup(env: Env, products: seq<Product>, p: Product, r: ProductRecord)
    requires KnownProduct(env, products, p.brandId, p.categoryId, r).None?
    requires p.model == r.model && p.name == r.name
    ensures OnlyFirstMembers(env, products, products + [p])
  {
    forall key ensures GroupKept(env, products, products + [p], key) {
      FilterLast(products, p, InKey(env, key));
      if InKey(env, key)(p) {
        var rows := Filter(products, InGroup(p.brandId, p.categoryId));
        assert forall x | x in rows :: !IdentityMatches(env, key.identity, r.name)(x);
        forall x | x in products ensures !InKey(env, key)(x) {
          assert InGroup(p.brandId, p.categoryId)(x) ==> x in rows;
        }
        FilterNone(products, InKey(env, key));
      }
    }
  }

  // A record resolves to a mapped product, or one of its SKU or identity, or to a first of its kind.
  lemma ResolveMakesNoDuplicates(env: Env, db: Db, storeId: Id, configId: Option<Id>, r: Record)
    requires Resolved(env, db, storeId, configId, r).Ok?
    ensures OnlyFirstMembers(env, db.products, Resolved(env, db, storeId, configId, r).value.0.products)
  {
    if r.productId.None? {
      var p, c := r.product.value, configId.value;
      if Find(db.mappings, MappingOf(storeId, c, p.externalProductId)).None? {
        var (db1, brandId) := WithBrand(env, db, p.brandName);
        var (db2, categoryId) := WithCategory(db1, p.categorySlug, p.categoryName);
        if KnownProduct(env, db2.products, brandId, categoryId, p).None? {
          UnknownHasNoGroup(env, db2.products, Product(db2.nextId, brandId, categoryId, p.model, p.name, p.sku), p);
        }
      }
    }
  }

  // ---- over a whole run ----

  ghost predicate NoDuplicates(env: Env, products: seq<Product>) {
    forall key :: |Members(env, products, key)| <= 1
  }

  // The groups of two or more members, with their members, are the same.
  ghost predicate SameDuplicates(env: Env, products: seq<Product>, after: seq<Product>) {
    forall key | |Members(env, products, key)| > 1 || |Members(env, after, key)| > 1 ::
      Members(env, after, key) == Members(env, products, key)
  }

  ghost predicate StepKeepsDuplicates(env: Env, step: Step) {
    forall db: Db, t: Timed :: SameDuplicates(env, db.products, step(db, t).0.products)
  }

  lemma UpsertKeepsDuplicates(env: Env, db: Db, storeId: Id, configId: Option<Id>, t: Timed)
    ensures SameDuplicates(env, db.products, Processed(env, db, storeId, configId, t).0.products)
  {
    var resolved := Resolved(env, db, storeId, configId, t.record);
    if resolved.Ok? {
      ResolveMakesNoDuplicates(env, db, storeId, configId, t.record);
      var after := resolved.value.0.products;
      forall key | |Members(env, db.products, key)| > 1 || |Members(env, after, key)| > 1
        ensures Members(env, after, key) == Members(env, db.products, key)
      {
        assert GroupKept(env, db.products, after, key);
      }
    }
  }

  lemma {:induction false} RunKeepsDuplicates(env: Env, step: Step, db: Db, feed: seq<Timed>)
    requires StepKeepsDuplicates(env, step)
    ensures SameDuplicates(env, db.products, RunWith(step, db, feed).0.products)
  {
    if feed != [] {
      var rest, t := feed[..|feed| - 1], feed[|feed| - 1];
      RunKeepsDuplicates(env, step, db, rest);
      var before := RunWith(step, db, rest).0;
      assert SameDuplicates(env, before.products, step(before, t).0.products);
    }
  }

  // A run leaves every duplicate group as it was, so a catalogue without duplicates stays without.
  lemma SyncMakesNoDuplicates(env: Env, db: Db, storeId: Id, configId: Option<Id>, feed: seq<Timed>)
    ensures SameDuplicates(env, db.products, RunRecords(env, db, storeId, configId, feed).0.products)
    ensures NoDuplicates(env, db.products) ==>
              NoDuplicates(env, RunRecords(env, db, storeId, configId, feed).0.products)
  {
    var step := StepFor(env, storeId, configId);
    forall d: Db, t: Timed ensures SameDuplicates(env, d.products, step(d, t).0.products) {
      UpsertKeepsDuplicates(env, d, storeId, configId, t);
    }
    RunKeepsDuplicates(env, step, db, feed);
  }

  // ---- the report ----

  datatype Group = Group(key: GroupKey, products: seq<Product>)

  // Lexicographic order of texts.
  predicate TextLe(a: string, b: string) {
    a == [] || (b != [] && (a[0] < b[0] || (a[0] == b[0] && TextLe(a[1..], b[1..]))))
  }

  lemma {:induction false} TextLeTotal(a: string, b: string)
    ensures TextLe(a, b) || TextLe(b, a)
  {
    if a != [] && b != [] { TextLeTotal(a[1..], b[1..]); }
  }

  lemma {:induction false} TextLeTransitive(a: string, b: string, c: string)
    requires TextLe(a, b) && TextLe(b, c)
    ensures TextLe(a, c)
  {
    if a != [] && a[0] == b[0] && b[0] == c[0] { TextLeTransitive(a[1..], b[1..], c[1..]); }
  }

  // Larger groups first, then by identity.
  function ReportOrder(): (Group, Group) -> bool {
    (a: Group, b: Group) =>
      |a.products| > |b.products| || (|a.products| == |b.products| && TextLe(a.key.identity, b.key.identity))
  }

  lemma ReportOrderIsTotal()
    ensures TotalPreorder(ReportOrder())
  {
    forall a, b ensures ReportOrder()(a, b) || ReportOrder()(b, a) {
      TextLeTotal(a.key.identity, b.key.identity);
    }
    forall a, b, c | ReportOrder()(a, b) && ReportOrder()(b, c) ensures ReportOrder()(a, c) {
      if |a.products| == |b.products| == |c.products| {
        TextLeTransitive(a.key.identity, b.key.identity, c.key.identity);
      }
    }
  }

  // ORDER BY category, brand (null last), name
  function ListingOrder(): (Product, Product) -> bool {
    (a: Product, b: Product) =>
      if a.categoryId != b.categoryId then a.categoryId < b.categoryId
      else if a.brandId != b.brandId
      then b.brandId.None? || (a.brandId.Some? && a.brandId.value < b.brandId.value)
      else TextLe(a.name, b.name)
  }

  function Listed(products: seq<Product>): seq<Product> { Sort(products, ListingOrder()) }

  ghost predicate GroupsOf(env: Env, rows: seq<Product>, order: seq<GroupKey>, groups: map<GroupKey, seq<Product>>) {
    && (forall key :: key in groups <==> Members(env, rows, key) != [])
    && (forall key | key in groups :: groups[key] == Members(env, rows, key))
    && (forall key :: key in order <==> key in groups)
    && (forall i, j | 0 <= i < j < |order| :: order[i] != order[j])
  }

  lemma MembersGrow(env: Env, rows: seq<Product>, p: Product)
    ensures forall k :: Members(env, rows + [p], k) ==
                          if KeyOfProduct(env, p) == Some(k) then Members(env, rows, k) + [p] else Members(env, rows, k)
  {
    forall k: GroupKey
      ensures Members(env, rows + [p], k) ==
                if KeyOfProduct(env, p) == Some(k) then Members(env, rows, k) + [p] else Members(env, rows, k)
    {
      FilterLast(rows, p, InKey(env, k));
    }
  }

  lemma GroupGrows(env: Env, rows: seq<Product>, p: Product, order: seq<GroupKey>, groups: map<GroupKey, seq<Product>>)
    requires GroupsOf(env, rows, order, groups)
    requires KeyOfProduct(env, p).Some? && KeyOfProduct(env, p).value in groups
    ensures var key := KeyOfProduct(env, p).value;
            GroupsOf(env, rows + [p], order, groups[key := groups[key] + [p]])
  {
    MembersGrow(env, rows, p);
  }

  lemma GroupStarts(env: Env, rows: seq<Product>, p: Product, order: seq<GroupKey>, groups: map<GroupKey, seq<Product>>)
    requires GroupsOf(env, rows, order, groups)
    requires KeyOfProduct(env, p).Some? && KeyOfProduct(env, p).value !in groups
    ensures var key := KeyOfProduct(env, p).value;
            GroupsOf(env, rows + [p], order + [key], groups[key := [p]])
  {
    MembersGrow(env, rows, p);
    var key := KeyOfProduct(env, p).value;
    assert Members(env, rows, key) == [];
    forall i, j | 0 <= i < j < |order + [key]| ensures (order + [key])[i] != (order + [key])[j] {
      if j == |order| { assert order[i] in order; }
    }
  }

  method GroupRows(env: Env, rows: seq<Product>)
    returns (order: seq<GroupKey>, groups: map<GroupKey, seq<Product>>)
    ensures GroupsOf(env, rows, order, groups)
  {
    order, groups := [], map[];
    for i := 0 to |rows|
      invariant GroupsOf(env, rows[..i], order, groups)
    {
      var product := rows[i];
      MembersGrow(env, rows[..i], product);
      assert rows[..i + 1] == rows[..i] + [product];
      match KeyOfProduct(env, product) {
        case None =>
        case Some(key) =>
          if key !in groups {
            GroupStarts(env, rows[..i], product, order, groups);
            order := order + [key];
            groups := groups[key := [product]];
          } else {
            GroupGrows(env, rows[..i], product, order, groups);
            groups := groups[key := groups[key] + [product]];
          }
      }
    }
    assert rows[..|rows|] == rows;
  }

  method CandidateGroups(env: Env, rows: seq<Product>) returns (candidates: seq<Group>)
    ensures forall g | g in candidates :: g.products == Members(env, rows, g.key) && |g.products| > 1
    ensures forall key | |Members(env, rows, key)| > 1 :: Group(key, Members(env, rows, key)) in candidates
    ensures Distinct(candidates, GroupKeyOf())
  {
    var order, groups := GroupRows(env, rows);
    candidates := [];
    for i := 0 to |order|
      invariant forall g | g in candidates ::
                  g.key in order[..i] && g.products == Members(env, rows, g.key) && |g.products| > 1
      invariant forall key | key in order[..i] && |Members(env, rows, key)| > 1 ::
                  Group(key, Members(env, rows, key)) in candidates
      invariant Distinct(candidates, GroupKeyOf())
    {
      if |groups[order[i]]| > 1 {
        candidates := candidates + [Group(order[i], groups[order[i]])];
      }
    }
  }

  function GroupKeyOf(): Group -> GroupKey { (g: Group) => g.key }

  ghost predicate ListedBefore(report: seq<Group>, group: Group) { forall g | g in report :: ReportOrder()(g, group) }

  // What is cut off a sorted list comes after what is kept.
  lemma CutComesAfter(sorted: seq<Group>, limit: nat, kept: Group, cut: Group)
    requires limit <= |sorted| && Sorted(sorted, ReportOrder())
    requires kept in sorted[..limit] && cut in sorted && cut !in sorted[..limit]
    ensures ReportOrder()(kept, cut)
  {
    var i :| 0 <= i < limit && sorted[i] == kept;
    var j :| 0 <= j < |sorted| && sorted[j] == cut;
    forall k | 0 <= k < limit ensures sorted[k] != cut {
      assert sorted[..limit][k] == sorted[k];
    }
  }

  lemma CutGroup(sorted: seq<Group>, limit: nat, cut: Group)
    requires limit <= |sorted| && Sorted(sorted, ReportOrder()) && cut in sorted && cut !in sorted[..limit]
    ensures ListedBefore(sorted[..limit], cut)
  {
    forall g | g in sorted[..limit] ensures ReportOrder()(g, cut) {
      CutComesAfter(sorted, limit, g, cut);
    }
  }

  ghost predicate LargestFirst(report: seq<Group>) {
    forall i, j | 0 <= i < j < |report| :: Precedes(report[i], report[j])
  }

  // Larger, or as large and not later by its identity.
  predicate Precedes(a: Group, b: Group) {
    |a.products| >= |b.products| && (|a.products| == |b.products| ==> TextLe(a.key.identity, b.key.identity))
  }

  lemma SortedIsLargestFirst(report: seq<Group>)
    requires Sorted(report, ReportOrder())
    ensures LargestFirst(report)
  {
    forall i, j | 0 <= i < j < |report| ensures Precedes(report[i], report[j]) {
      assert ReportOrder()(report[i], report[j]);
    }
  }

  ghost predicate AreCandidates(env: Env, rows: seq<Product>, candidates: seq<Group>) {
    && (forall g | g in candidates :: g.products == Members(env, rows, g.key) && |g.products| > 1)
    && (forall key | |Members(env, rows, key)| > 1 :: Group(key, Members(env, rows, key)) in candidates)
    && Distinct(candidates, GroupKeyOf())
  }

  lemma SortedCandidates(env: Env, rows: seq<Product>, candidates: seq<Group>)
    requires AreCandidates(env, rows, candidates)
    ensures AreCandidates(env, rows, Sort(candidates, ReportOrder())) && Sorted(Sort(candidates, ReportOrder()), ReportOrder())
  {
    ReportOrderIsTotal();
    SortContents(candidates, ReportOrder());
    SortSorted(candidates, ReportOrder());
    DistinctPermuted(candidates, Sort(candidates, ReportOrder()), GroupKeyOf());
  }

  lemma ListedOrCut(env: Env, rows: seq<Product>, sorted: seq<Group>, limit: nat, key: GroupKey)
    requires AreCandidates(env, rows, sorted) && Sorted(sorted, ReportOrder()) && |Members(env, rows, key)| > 1
    ensures var report := Take(sorted, limit);
            || (exists g :: g in report && g.key == key)
            || (|report| == limit && ListedBefore(report, Group(key, Members(env, rows, key))))
  {
    var group := Group(key, Members(env, rows, key));
    assert group in sorted;
    if limit < |sorted| && group !in Take(sorted, limit) {
      CutGroup(sorted, limit, group);
    }
  }

  lemma TakenCandidates(env: Env, rows: seq<Product>, sorted: seq<Group>, limit: nat)
    requires AreCandidates(env, rows, sorted) && Sorted(sorted, ReportOrder())
    ensures var report := Take(sorted, limit);
            && |report| <= limit && Sorted(report, ReportOrder()) && Distinct(report, GroupKeyOf()) && LargestFirst(report)
            && (forall g | g in report :: g.products == Members(env, rows, g.key) && |g.products| > 1)
            && (limit > 0 ==> (report == [] <==> NoDuplicates(env, rows)))
  {
    var report := Take(sorted, limit);
    DistinctPrefix(sorted, GroupKeyOf(), |report|);
    assert report == sorted[..|report|];
    SortedIsLargestFirst(report);
    if sorted != [] {
      assert sorted[0] in sorted;
    }
  }

  lemma ListedMembers(env: Env, products: seq<Product>)
    ensures forall key :: |Members(env, Listed(products), key)| == |Members(env, products, key)|
    ensures NoDuplicates(env, Listed(products)) <==> NoDuplicates(env, products)
  {
    forall key ensures |Members(env, Listed(products), key)| == |Members(env, products, key)| {
      SortKeepsCount(products, ListingOrder(), InKey(env, key));
    }
  }

  // The report lists duplicate groups with all their members, each once and largest first. A group
  // is left out only when the limit is reached, and then comes after all that are listed; the
  // report is empty exactly when there is nothing to report.
  method ListProductDuplicateCandidates(session: Session, env: Env, limit: nat) returns (report: seq<Group>)
    ensures |report| <= limit
    ensures forall g | g in report :: g.products == Members(env, Listed(session.products), g.key) && |g.products| > 1
    ensures forall key | |Members(env, session.products, key)| > 1 ::
              || (exists g :: g in report && g.key == key)
              || (|report| == limit && ListedBefore(report, Group(key, Members(env, Listed(session.products), key))))
    ensures Sorted(report, ReportOrder()) && Distinct(report, GroupKeyOf()) && LargestFirst(report)
    ensures limit > 0 ==> (report == [] <==> NoDuplicates(env, session.products))
  {
    var rows := Listed(session.products);
    var candidates := CandidateGroups(env, rows);
    var sorted := Sort(candidates, ReportOrder());
    report := Take(sorted, limit);
    SortedCandidates(env, rows, candidates);
    TakenCandidates(env, rows, sorted, limit);
    ListedMembers(env, session.products);
    forall key | |Members(env, session.products, key)| > 1
      ensures (exists g :: g in report && g.key == key)
              || (|report| == limit && ListedBefore(report, Group(key, Members(env, rows, key))))
    {
      ListedOrCut(env, rows, sorted, limit, key);
    }
  }
}
