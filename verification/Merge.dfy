/** Merging one product into another (domains/catalog/service.py). */
module Merge {
  import opened Prelude
  import opened Tables
  import opened Offers

  // The products and the seven tables that refer to them.
  datatype Refs = Refs(products: seq<Product>, offers: seq<Offer>, analytics: seq<Analytics>,
                       recommendations: seq<Recommendation>, watchlists: seq<Watchlist>,
                       mappings: seq<Mapping>, items: seq<RunItem>, variants: seq<Variant>)

  datatype MergeStats = MergeStats(offers: nat, analytics: nat, recommendations: nat, watchlists: nat,
                                   mappings: nat, items: nat, variants: nat)

  datatype MergeError = SameProduct | NoSource | NoTarget | VariantClash

  // Rows that pointed to the source point to the target and are otherwise the same; the others
  // are untouched; no row is added, dropped or reordered.
  ghost predicate Redirected<T(!new)>(before: seq<T>, after: seq<T>, refers: T -> bool, rebind: T -> T) {
    && |after| == |before|
    && forall i | 0 <= i < |before| :: after[i] == if refers(before[i]) then rebind(before[i]) else before[i]
  }

  // UPDATE table SET product_id = target WHERE product_id = source
  function Rebound<T(!new)>(rows: seq<T>, refers: T -> bool, rebind: T -> T): (after: seq<T>)
    ensures Redirected(rows, after, refers, rebind)
  {
    if rows == [] then []
    else [if refers(rows[0]) then rebind(rows[0]) else rows[0]] + Rebound(rows[1..], refers, rebind)
  }

  // ... with the row count the statement reports.
  function Move<T(!new)>(rows: seq<T>, refers: T -> bool, rebind: T -> T): (seq<T>, nat) {
    (Rebound(rows, refers, rebind), |Filter(rows, refers)|)
  }

  function OfferRefers(id: Id): Offer -> bool { (o: Offer) => o.productId == id }
  function OfferTo(id: Id): Offer -> Offer { (o: Offer) => o.(productId := id) }
  function AnalyticsRefers(id: Id): Analytics -> bool { (a: Analytics) => a.productId == id }
  function AnalyticsTo(id: Id): Analytics -> Analytics { (a: Analytics) => a.(productId := id) }
  function RecommendationRefers(id: Id): Recommendation -> bool { (r: Recommendation) => r.productId == id }
  function RecommendationTo(id: Id): Recommendation -> Recommendation { (r: Recommendation) => r.(productId := id) }
  function WatchlistRefers(id: Id): Watchlist -> bool { (w: Watchlist) => w.productId == Some(id) }
  function WatchlistTo(id: Id): Watchlist -> Watchlist { (w: Watchlist) => w.(productId := Some(id)) }
  function MappingRefers(id: Id): Mapping -> bool { (m: Mapping) => m.productId == id }
  function MappingTo(id: Id): Mapping -> Mapping { (m: Mapping) => m.(productId := id) }
  function ItemRefers(id: Id): RunItem -> bool { (i: RunItem) => i.productId == Some(id) }
  function ItemTo(id: Id): RunItem -> RunItem { (i: RunItem) => i.(productId := Some(id)) }
  function VariantRefers(id: Id): Variant -> bool { (v: Variant) => v.productId == id }
  function VariantTo(id: Id): Variant -> Variant { (v: Variant) => v.(productId := id) }

  function OtherProduct(id: Id): Product -> bool { (p: Product) => p.id != id }

  // The unique constraint of product_variants: as in SQL, an absent value equals nothing.
  predicate SameShape(a: Variant, b: Variant) {
    && a.sizeValue.Some? && a.sizeSystem.Some? && a.color.Some? && a.sku.Some?
    && a.sizeValue == b.sizeValue && a.sizeSystem == b.sizeSystem && a.color == b.color && a.sku == b.sku
  }

  predicate VariantsUnique(variants: seq<Variant>) {
    forall i, j | 0 <= i < j < |variants| ::
      !(variants[i].productId == variants[j].productId && SameShape(variants[i], variants[j]))
  }

  function MovedRefs(t: Refs, source: Id, target: Id): Refs {
    Refs(t.products,
         Move(t.offers, OfferRefers(source), OfferTo(target)).0,
         Move(t.analytics, AnalyticsRefers(source), AnalyticsTo(target)).0,
         Move(t.recommendations, RecommendationRefers(source), RecommendationTo(target)).0,
         Move(t.watchlists, WatchlistRefers(source), WatchlistTo(target)).0,
         Move(t.mappings, MappingRefers(source), MappingTo(target)).0,
         Move(t.items, ItemRefers(source), ItemTo(target)).0,
         Move(t.variants, VariantRefers(source), VariantTo(target)).0)
  }

  function MovedCounts(t: Refs, source: Id, target: Id): MergeStats {
    MergeStats(Move(t.offers, OfferRefers(source), OfferTo(target)).1,
               Move(t.analytics, AnalyticsRefers(source), AnalyticsTo(target)).1,
               Move(t.recommendations, RecommendationRefers(source), RecommendationTo(target)).1,
               Move(t.watchlists, WatchlistRefers(source), WatchlistTo(target)).1,
               Move(t.mappings, MappingRefers(source), MappingTo(target)).1,
               Move(t.items, ItemRefers(source), ItemTo(target)).1,
               Move(t.variants, VariantRefers(source), VariantTo(target)).1)
  }

  function Merged(t: Refs, source: Id, target: Id): Result<(Refs, MergeStats), MergeError> {
    if source == target then Err(SameProduct)
    else if Find(t.products, HasProductId(source)).None? then Err(NoSource)
    else if Find(t.products, HasProductId(target)).None? then Err(NoTarget)
    else
      var moved := MovedRefs(t, source, target);
      if !VariantsUnique(moved.variants) then Err(VariantClash)
      else Ok((moved.(products := Filter(t.products, OtherProduct(source))), MovedCounts(t, source, target)))
  }

  function RefsOf(session: Session): Refs
    reads session
  {
    Refs(session.products, session.offers, session.analytics, session.recommendations, session.watchlists,
         session.mappings, session.items, session.variants)
  }

  // One UPDATE per referring table; the database refuses the one on the variants if it would
  // break their uniqueness.
  method MoveProductRefs(session: Session, source: Id, target: Id) returns (r: Result<MergeStats, MergeError>)
    modifies session`offers, session`analytics, session`recommendations
    modifies session`watchlists, session`mappings, session`items, session`variants
    ensures r.Ok? <==> VariantsUnique(MovedRefs(old(RefsOf(session)), source, target).variants)
    ensures r.Err? ==> r.error == VariantClash && session.variants == old(session.variants)
    ensures r.Ok? ==>
              && RefsOf(session) == MovedRefs(old(RefsOf(session)), source, target)
              && r.value == MovedCounts(old(RefsOf(session)), source, target)
  {
    var (offers, n1) := Move(session.offers, OfferRefers(source), OfferTo(target));
    session.offers := offers;
    var (analytics, n2) := Move(session.analytics, AnalyticsRefers(source), AnalyticsTo(target));
    session.analytics := analytics;
    var (recommendations, n3) := Move(session.recommendations, RecommendationRefers(source), RecommendationTo(target));
    session.recommendations := recommendations;
    var (watchlists, n4) := Move(session.watchlists, WatchlistRefers(source), WatchlistTo(target));
    session.watchlists := watchlists;
    var (mappings, n5) := Move(session.mappings, MappingRefers(source), MappingTo(target));
    session.mappings := mappings;
    var (items, n6) := Move(session.items, ItemRefers(source), ItemTo(target));
    session.items := items;
    var (variants, n7) := Move(session.variants, VariantRefers(source), VariantTo(target));
    if !VariantsUnique(variants) {
      return Err(VariantClash);
    }
    session.variants := variants;
    r := Ok(MergeStats(n1, n2, n3, n4, n5, n6, n7));
  }

  // An unfinished transaction is rolled back.
  method Rollback(session: Session, t: Refs)
    modifies session`products, session`offers, session`analytics, session`recommendations
    modifies session`watchlists, session`mappings, session`items, session`variants
    ensures RefsOf(session) == t
  {
    session.products, session.offers, session.analytics := t.products, t.offers, t.analytics;
    session.recommendations, session.watchlists := t.recommendations, t.watchlists;
    session.mappings, session.items, session.variants := t.mappings, t.items, t.variants;
  }

  method MergeProduct(session: Session, source: Id, target: Id) returns (r: Result<MergeStats, MergeError>)
    modifies session`products, session`offers, session`analytics, session`recommendations
    modifies session`watchlists, session`mappings, session`items, session`variants
    ensures match Merged(old(RefsOf(session)), source, target)
            case Err(e) => r == Err(e) && RefsOf(session) == old(RefsOf(session))
            case Ok(v) => r == Ok(v.1) && RefsOf(session) == v.0
  {
    if source == target {
      return Err(SameProduct);
    }
    if Find(session.products, HasProductId(source)).None? {
      return Err(NoSource);
    }
    if Find(session.products, HasProductId(target)).None? {
      return Err(NoTarget);
    }
    var begin := RefsOf(session);
    r := MoveProductRefs(session, source, target);
    if r.Err? {
      Rollback(session, begin);
      return;
    }
    session.products := Filter(session.products, OtherProduct(source));
  }

  // ---- what a merge keeps ----

  // Every row stays in its place; one that pointed to the source points to the target and is otherwise
  // the same.
  ghost predicate RowsMoved(t: Refs, after: Refs, source: Id, target: Id) {
    && |after.offers| == |t.offers| && |after.analytics| == |t.analytics|
    && |after.recommendations| == |t.recommendations| && |after.watchlists| == |t.watchlists|
    && |after.mappings| == |t.mappings| && |after.items| == |t.items| && |after.variants| == |t.variants|
    && (forall i | 0 <= i < |t.offers| :: var o := t.offers[i];
          after.offers[i] == if o.productId == source then o.(productId := target) else o)
    && (forall i | 0 <= i < |t.analytics| :: var a := t.analytics[i];
          after.analytics[i] == if a.productId == source then a.(productId := target) else a)
    && (forall i | 0 <= i < |t.recommendations| :: var r := t.recommendations[i];
          after.recommendations[i] == if r.productId == source then r.(productId := target) else r)
    && (forall i | 0 <= i < |t.watchlists| :: var w := t.watchlists[i];
          after.watchlists[i] == if w.productId == Some(source) then w.(productId := Some(target)) else w)
    && (forall i | 0 <= i < |t.mappings| :: var m := t.mappings[i];
          after.mappings[i] == if m.productId == source then m.(productId := target) else m)
    && (forall i | 0 <= i < |t.items| :: var x := t.items[i];
          after.items[i] == if x.productId == Some(source) then x.(productId := Some(target)) else x)
    && (forall i | 0 <= i < |t.variants| :: var v := t.variants[i];
          after.variants[i] == if v.productId == source then v.(productId := target) else v)
  }

  ghost function Changed<T>(before: seq<T>, after: seq<T>): set<nat>
    requires |after| == |before|
  {
    set i: nat | i < |before| && after[i] != before[i]
  }

  // The reported numbers are those of the rows that changed.
  ghost predicate MovesCounted(t: Refs, after: Refs, stats: MergeStats)
    requires |after.offers| == |t.offers| && |after.analytics| == |t.analytics|
    requires |after.recommendations| == |t.recommendations| && |after.watchlists| == |t.watchlists|
    requires |after.mappings| == |t.mappings| && |after.items| == |t.items| && |after.variants| == |t.variants|
  {
    stats == MergeStats(|Changed(t.offers, after.offers)|, |Changed(t.analytics, after.analytics)|,
                        |Changed(t.recommendations, after.recommendations)|, |Changed(t.watchlists, after.watchlists)|,
                        |Changed(t.mappings, after.mappings)|, |Changed(t.items, after.items)|,
                        |Changed(t.variants, after.variants)|)
  }

  lemma MovedRowsMoved(t: Refs, source: Id, target: Id)
    ensures RowsMoved(t, MovedRefs(t, source, target), source, target)
  {}

  lemma MovedAreChanged<T(!new)>(rows: seq<T>, refers: T -> bool, rebind: T -> T)
    requires forall x | refers(x) :: rebind(x) != x
    ensures Move(rows, refers, rebind).1 == |Changed(rows, Move(rows, refers, rebind).0)|
  {
    FilterCounts(rows, refers);
    assert Places(rows, refers) == Changed(rows, Rebound(rows, refers, rebind));
  }

  lemma MovedAreCounted(t: Refs, source: Id, target: Id)
    requires source != target
    ensures MovesCounted(t, MovedRefs(t, source, target), MovedCounts(t, source, target))
  {
    MovedAreChanged(t.offers, OfferRefers(source), OfferTo(target));
    MovedAreChanged(t.analytics, AnalyticsRefers(source), AnalyticsTo(target));
    MovedAreChanged(t.recommendations, RecommendationRefers(source), RecommendationTo(target));
    MovedAreChanged(t.watchlists, WatchlistRefers(source), WatchlistTo(target));
    MovedAreChanged(t.mappings, MappingRefers(source), MappingTo(target));
    MovedAreChanged(t.items, ItemRefers(source), ItemTo(target));
    MovedAreChanged(t.variants, VariantRefers(source), VariantTo(target));
  }

  ghost predicate NoReference(t: Refs, id: Id) {
    && (forall o | o in t.offers :: o.productId != id) && (forall a | a in t.analytics :: a.productId != id)
    && (forall r | r in t.recommendations :: r.productId != id) && (forall w | w in t.watchlists :: w.productId != Some(id))
    && (forall m | m in t.mappings :: m.productId != id) && (forall i | i in t.items :: i.productId != Some(id))
    && (forall v | v in t.variants :: v.productId != id)
  }

  lemma MovedLeaveNoReference(t: Refs, after: Refs, source: Id, target: Id)
    requires RowsMoved(t, after, source, target) && source != target
    ensures NoReference(after, source)
  {}

  // Every row of the seven tables survives a merge and is counted as moved exactly if it pointed
  // to the source; only the source is gone from the products, and nothing refers to it.
  lemma MergeConserves(t: Refs, source: Id, target: Id)
    requires Merged(t, source, target).Ok? && Distinct(t.products, ProductId())
    ensures var (after, stats) := Merged(t, source, target).value;
            && RowsMoved(t, after, source, target) && MovesCounted(t, after, stats)
            && NoReference(after, source)
            && |after.products| == |t.products| - 1
            && forall p :: p in after.products <==> p in t.products && p.id != source
  {
    OneProductRemoved(t.products, source);
    MovedRowsMoved(t, source, target);
    MovedAreCounted(t, source, target);
    MovedLeaveNoReference(t, Merged(t, source, target).value.0, source, target);
  }

  lemma {:induction false} OneProductRemoved(products: seq<Product>, id: Id)
    requires Distinct(products, ProductId()) && Find(products, HasProductId(id)).Some?
    ensures |Filter(products, OtherProduct(id))| == |products| - 1
  {
    var head, tail := products[0], products[1..];
    forall i, j | 0 <= i < j < |tail| ensures ProductId()(tail[i]) != ProductId()(tail[j]) {
      assert tail[i] == products[i + 1] && tail[j] == products[j + 1];
    }
    if head.id == id {
      forall p | p in tail ensures OtherProduct(id)(p) {
        var i :| 0 <= i < |tail| && tail[i] == p;
        assert ProductId()(products[0]) != ProductId()(products[i + 1]);
      }
      FilterAll(tail, OtherProduct(id));
    } else {
      OneProductRemoved(tail, id);
    }
  }

  // The unique keys that do not involve the product survive every merge.
  function StoreKey(): Offer -> (Id, Option<string>, Id) {
    (o: Offer) => (o.storeId, o.externalId, if o.externalId.Some? then 0 else o.id)
  }

  function MappingKey(): Mapping -> (Id, Id, string) { (m: Mapping) => (m.storeId, m.configId, m.externalId) }

  lemma MergeKeepsKeys(t: Refs, source: Id, target: Id)
    requires Merged(t, source, target).Ok?
    ensures var after := Merged(t, source, target).value.0;
            && (Distinct(t.offers, StoreKey()) <==> Distinct(after.offers, StoreKey()))
            && (Distinct(t.mappings, MappingKey()) <==> Distinct(after.mappings, MappingKey()))
  {
    var after := Merged(t, source, target).value.0;
    OfferKeysKept(t, source, target);
    MappingKeysKept(t, source, target);
    SameKeysSameDistinct(t.offers, after.offers, StoreKey());
    SameKeysSameDistinct(t.mappings, after.mappings, MappingKey());
  }

  lemma OfferKeysKept(t: Refs, source: Id, target: Id)
    requires Merged(t, source, target).Ok?
    ensures var after := Merged(t, source, target).value.0.offers;
            |after| == |t.offers| && forall i | 0 <= i < |after| :: StoreKey()(t.offers[i]) == StoreKey()(after[i])
  {}

  lemma MappingKeysKept(t: Refs, source: Id, target: Id)
    requires Merged(t, source, target).Ok?
    ensures var after := Merged(t, source, target).value.0.mappings;
            |after| == |t.mappings| && forall i | 0 <= i < |after| :: MappingKey()(t.mappings[i]) == MappingKey()(after[i])
  {}

  lemma SameKeysSameDistinct<T, K(!new)>(a: seq<T>, b: seq<T>, key: T -> K)
    requires |a| == |b| && forall i | 0 <= i < |a| :: key(a[i]) == key(b[i])
    ensures Distinct(a, key) <==> Distinct(b, key)
  {
    if Distinct(a, key) {
      forall i, j | 0 <= i < j < |b| ensures key(b[i]) != key(b[j]) {
        assert key(a[i]) != key(a[j]);
      }
    }
    if Distinct(b, key) {
      forall i, j | 0 <= i < j < |a| ensures key(a[i]) != key(a[j]) {
        assert key(b[i]) != key(b[j]);
      }
    }
  }

  // ---- when a merge goes through ----

  // A variant of either product and one of the other agree in size, size system, colour and SKU, all
  // of them given.
  ghost predicate ShapeInBoth(variants: seq<Variant>, source: Id, target: Id) {
    exists v, w :: v in variants && w in variants && v.productId == source && w.productId == target
                   && FullyAlike(v, w)
  }

  predicate FullyAlike(v: Variant, w: Variant) {
    && v.sizeValue.Some? && w.sizeValue.Some? && v.sizeValue.value == w.sizeValue.value
    && v.sizeSystem.Some? && w.sizeSystem.Some? && v.sizeSystem.value == w.sizeSystem.value
    && v.color.Some? && w.color.Some? && v.color.value == w.color.value
    && v.sku.Some? && w.sku.Some? && v.sku.value == w.sku.value
  }

  lemma SameShapeIff(v: Variant, w: Variant)
    ensures SameShape(v, w) <==> FullyAlike(v, w)
  {}

  // Two different existing products merge exactly unless a variant of one has the full shape of
  // a variant of the other.
  lemma MergeSucceedsIff(t: Refs, source: Id, target: Id)
    requires VariantsUnique(t.variants)
    ensures Merged(t, source, target).Ok? <==>
              && source != target
              && (exists p :: p in t.products && p.id == source) && (exists p :: p in t.products && p.id == target)
              && !ShapeInBoth(t.variants, source, target)
  {
    forall p | p in t.products ensures HasProductId(p.id)(p) {}
    if source != target {
      ClashIff(t.variants, source, target);
    }
  }

  // Which error a merge that does not go through gives.
  lemma MergeFailsAs(t: Refs, source: Id, target: Id)
    requires Merged(t, source, target).Err?
    ensures var e := Merged(t, source, target).error;
            && (e == SameProduct <==> source == target)
            && (e == NoSource <==> source != target && forall p | p in t.products :: p.id != source)
            && (e == NoTarget <==> source != target && (exists p :: p in t.products && p.id == source)
                                   && forall p | p in t.products :: p.id != target)
  {
    forall p | p in t.products ensures HasProductId(p.id)(p) {}
  }

  lemma ClashIff(variants: seq<Variant>, source: Id, target: Id)
    requires VariantsUnique(variants) && source != target
    ensures VariantsUnique(Move(variants, VariantRefers(source), VariantTo(target)).0) <==>
              !ShapeInBoth(variants, source, target)
  {
    var after := Move(variants, VariantRefers(source), VariantTo(target)).0;
    if v, w :| v in variants && w in variants && v.productId == source && w.productId == target && FullyAlike(v, w) {
      SharedShapeClashes(variants, after, source, target, v, w);
    } else {
      forall i, j | 0 <= i < j < |after|
        ensures !(after[i].productId == after[j].productId && SameShape(after[i], after[j]))
      {
        OwnShapesStay(variants, after, source, target, i, j);
      }
    }
  }

  ghost predicate VariantsMoved(variants: seq<Variant>, after: seq<Variant>, source: Id, target: Id) {
    Redirected(variants, after, VariantRefers(source), VariantTo(target))
  }

  lemma SharedShapeClashes(variants: seq<Variant>, after: seq<Variant>, source: Id, target: Id, v: Variant, w: Variant)
    requires VariantsMoved(variants, after, source, target) && source != target
    requires v in variants && w in variants && v.productId == source && w.productId == target && FullyAlike(v, w)
    ensures !VariantsUnique(after)
  {
    var i :| 0 <= i < |variants| && variants[i] == v;
    var j :| 0 <= j < |variants| && variants[j] == w;
    assert after[i].productId == target && after[j].productId == target;
    assert SameShape(after[i], after[j]) && SameShape(after[j], after[i]);
    assert i < j || j < i;
  }

  lemma OwnShapesStay(variants: seq<Variant>, after: seq<Variant>, source: Id, target: Id, i: nat, j: nat)
    requires VariantsUnique(variants) && VariantsMoved(variants, after, source, target)
    requires !ShapeInBoth(variants, source, target) && i < j < |after|
    ensures !(after[i].productId == after[j].productId && SameShape(after[i], after[j]))
  {
    var v, w := variants[i], variants[j];
    assert !(v.productId == w.productId && SameShape(v, w));
    assert v in variants && w in variants;
    assert SameShape(after[i], after[j]) <==> FullyAlike(v, w);
    assert FullyAlike(v, w) <==> FullyAlike(w, v);
  }

  // ---- what a merge does not keep ----

  // One analytics row per key survives a merge exactly if no store, nor the all-stores row, is
  // present for both products. Two products that both have offers each have an all-stores row,
  // so merging them always leaves two rows under one key.
  lemma AnalyticsKeysSurviveIff(t: Refs, source: Id, target: Id)
    requires Merged(t, source, target).Ok? && Distinct(t.analytics, AnalyticsKey())
    ensures Distinct(Merged(t, source, target).value.0.analytics, AnalyticsKey()) <==>
              forall a, b | a in t.analytics && b in t.analytics && a.productId == source && b.productId == target ::
                a.storeId != b.storeId
  {
    var after := Merged(t, source, target).value.0.analytics;
    RedirectedKeysIff(t.analytics, after, source, target);
  }

  lemma RedirectedKeysIff(before: seq<Analytics>, after: seq<Analytics>, source: Id, target: Id)
    requires source != target && Redirected(before, after, AnalyticsRefers(source), AnalyticsTo(target))
    requires Distinct(before, AnalyticsKey())
    ensures Distinct(after, AnalyticsKey()) <==>
              forall a, b | a in before && b in before && a.productId == source && b.productId == target ::
                a.storeId != b.storeId
  {
    var key := AnalyticsKey();
    if Distinct(after, key) {
      forall a, b | a in before && b in before && a.productId == source && b.productId == target
        ensures a.storeId != b.storeId
      {
        var i :| 0 <= i < |before| && before[i] == a;
        var j :| 0 <= j < |before| && before[j] == b;
        assert i < j ==> key(after[i]) != key(after[j]);
        assert j < i ==> key(after[j]) != key(after[i]);
      }
    }
    if forall a, b | a in before && b in before && a.productId == source && b.productId == target :: a.storeId != b.storeId {
      forall i, j | 0 <= i < j < |after| ensures key(after[i]) != key(after[j]) {
        assert key(before[i]) != key(before[j]);
        assert before[i] in before && before[j] in before;
      }
    }
  }
}
