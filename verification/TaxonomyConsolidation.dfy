/** The merchant-category consolidation transaction of the development seed: legacy food
    categories are folded into one, row by row, over live merchant references. */
module TaxonomyConsolidation {
  import opened Basics

  datatype SubCategory = SubCategory(categoryId: int, slug: string)

  datatype Merchant = Merchant(categoryId: Option<int>, subCategoryId: Option<int>)

  /** The three tables: categories by id with their slug, sub-categories, merchants. */
  datatype Taxonomy = Taxonomy(
    categories: map<int, string>, subs: map<int, SubCategory>, merchants: map<int, Merchant>)

  const TARGET_SLUG := "food-restaurants"

  predicate IsLegacySlug(slug: string) {
    slug in {"food", "restaurants", "food-beverages"}
  }

  // ------------------------------------------------- the schema's constraints

  ghost predicate SlugsAreUnique(t: Taxonomy) {
    forall i, j :: i in t.subs && j in t.subs && t.subs[i] == t.subs[j] ==> i == j
  }

  ghost predicate ForeignKeysHold(t: Taxonomy) {
    && (forall i :: i in t.subs ==> t.subs[i].categoryId in t.categories)
    && (forall m :: m in t.merchants && t.merchants[m].categoryId.Some? ==>
         t.merchants[m].categoryId.value in t.categories)
    && (forall m :: m in t.merchants && t.merchants[m].subCategoryId.Some? ==>
         t.merchants[m].subCategoryId.value in t.subs)
  }

  ghost predicate WellFormed(t: Taxonomy) {
    SlugsAreUnique(t) && ForeignKeysHold(t)
  }

  ghost predicate IsLegacyCategory(t: Taxonomy, c: int) {
    c in t.categories && IsLegacySlug(t.categories[c])
  }

  ghost function LegacyIds(t: Taxonomy): set<int> {
    set c | c in t.categories && IsLegacyCategory(t, c)
  }

  ghost predicate IsLegacySub(t: Taxonomy, s: int) {
    s in t.subs && IsLegacyCategory(t, t.subs[s].categoryId)
  }

  // ------------------------------------------------------------ the database

  datatype LegacyCategory = LegacyCategory(id: int, subCategoryIds: seq<int>)

  /** What `findMany({ include: { subCategories } })` may answer: the legacy categories and
      their sub-categories, each once, in whatever order. */
  ghost predicate IsListing(t: Taxonomy, listing: seq<LegacyCategory>) {
    && (forall i :: 0 <= i < |listing| ==> IsLegacyCategory(t, listing[i].id))
    && (forall c :: IsLegacyCategory(t, c) ==> exists i :: 0 <= i < |listing| && listing[i].id == c)
    && (forall i, j :: 0 <= i < j < |listing| ==> listing[i].id != listing[j].id)
    && (forall i :: 0 <= i < |listing| ==> ListsSubsOf(t, listing[i].id, listing[i].subCategoryIds))
  }

  ghost predicate ListsSubsOf(t: Taxonomy, c: int, ids: seq<int>) {
    && (forall s :: s in ids <==> s in t.subs && t.subs[s].categoryId == c)
    && (forall i, j :: 0 <= i < j < |ids| ==> ids[i] != ids[j])
  }

  class Database {
    var categories: map<int, string>
    var subs: map<int, SubCategory>
    var merchants: map<int, Merchant>
    /** Set once a delete hits a row that is still referenced. */
    ghost var referencedRowDeleted: bool

    ghost function Tables(): Taxonomy
      reads this
    {
      Taxonomy(categories, subs, merchants)
    }

    /** `findUnique({ where: { categoryId_slug } })`. */
    method FindUniqueSubCategory(categoryId: int, slug: string) returns (found: Option<int>)
      ensures found.Some? ==> found.value in subs && subs[found.value] == SubCategory(categoryId, slug)
      ensures found.None? ==> forall s :: s in subs ==> subs[s] != SubCategory(categoryId, slug)
    {
      if s :| s in subs && subs[s] == SubCategory(categoryId, slug) {
        return Some(s);
      }
      return None;
    }

    method RepointSubCategory(from: int, to: int)
      modifies this`merchants
      ensures merchants == WithSub(old(merchants), from, Some(to))
    {
      merchants := WithSub(merchants, from, Some(to));
    }

    method RepointCategory(from: int, to: int)
      modifies this`merchants
      ensures merchants == WithCategory(old(merchants), from, Some(to))
    {
      merchants := WithCategory(merchants, from, Some(to));
    }

    method MoveSubCategory(s: int, categoryId: int)
      requires s in subs
      modifies this`subs
      ensures subs == old(subs)[s := old(subs)[s].(categoryId := categoryId)]
    {
      subs := subs[s := subs[s].(categoryId := categoryId)];
    }

    /** Deleting a sub-category empties the optional references to it. */
    method DeleteSubCategory(s: int)
      modifies this
      ensures categories == old(categories) && subs == old(subs) - {s}
      ensures merchants == WithSub(old(merchants), s, None)
      ensures referencedRowDeleted == (old(referencedRowDeleted) || UsesSub(old(merchants), s))
    {
      referencedRowDeleted := referencedRowDeleted || UsesSub(merchants, s);
      subs := subs - {s};
      merchants := WithSub(merchants, s, None);
    }

    /** Deleting a category cascades to its sub-categories and empties optional references. */
    method DeleteCategory(c: int)
      modifies this
      ensures categories == old(categories) - {c}
      ensures subs == SubsOutside(old(subs), c)
      ensures merchants == map m | m in old(merchants) :: WithoutCategory(old(merchants)[m], old(subs), c)
      ensures referencedRowDeleted ==
              (old(referencedRowDeleted) || HasSubs(old(subs), c) || UsesCategory(old(merchants), c))
    {
      referencedRowDeleted := referencedRowDeleted || HasSubs(subs, c) || UsesCategory(merchants, c);
      categories := categories - {c};
      merchants := map m | m in merchants :: WithoutCategory(merchants[m], subs, c);
      subs := SubsOutside(subs, c);
    }

    // --------------------------------------------------- the transaction

    /** The inner loop body: fold one legacy sub-category into the target. */
    method FoldSubCategory(s: int, target: int, ghost before: Taxonomy, ghost done: set<int>, ghost gone: set<int>)
      requires Progress(before, Tables(), target, done, gone) && !referencedRowDeleted
      requires IsLegacySub(before, s) && s !in done
      modifies this
      ensures Progress(before, Tables(), target, done + {s}, gone) && !referencedRowDeleted
    {
      ghost var now := Tables();
      var existing := FindUniqueSubCategory(target, subs[s].slug);
      if existing.Some? {
        MergeStep(before, now, target, done, gone, s, existing.value);
        RepointSubCategory(s, existing.value);
        UnusedSub(merchants, s);
        DeleteSubCategory(s);
      } else {
        MoveStep(before, now, target, done, gone, s);
        MoveSubCategory(s, target);
      }
    }

    /** The end of the outer loop body: the category is empty, and goes. */
    method CloseCategory(c: int, target: int, ghost before: Taxonomy, ghost done: set<int>, ghost gone: set<int>)
      requires Progress(before, Tables(), target, done, gone) && !referencedRowDeleted
      requires IsLegacyCategory(before, c)
      requires forall s :: s in before.subs && before.subs[s].categoryId == c ==> s in done
      modifies this
      ensures Progress(before, Tables(), target, done, gone + {c}) && !referencedRowDeleted
    {
      CloseStep(before, Tables(), target, done, gone, c);
      RepointCategory(c, target);
      UnusedCategory(merchants, subs, c);
      DeleteCategory(c);
    }

    /** The inner loop. */
    method FoldSubCategories(c: int, ids: seq<int>, target: int, ghost before: Taxonomy, ghost done: set<int>,
      ghost gone: set<int>)
      requires Progress(before, Tables(), target, done, gone) && !referencedRowDeleted
      requires IsLegacyCategory(before, c) && ListsSubsOf(before, c, ids)
      requires forall s :: s in done ==> s in before.subs && before.subs[s].categoryId != c
      modifies this
      ensures Progress(before, Tables(), target, done + SubsOf(before, c), gone) && !referencedRowDeleted
    {
      FirstSubs(done, ids);
      ghost var folded := done;
      for n := 0 to |ids|
        invariant folded == WithFirst(done, ids, n)
        invariant Progress(before, Tables(), target, folded, gone) && !referencedRowDeleted
      {
        NextSub(before, c, ids, n, done);
        FoldSubCategory(ids[n], target, before, folded, gone);
        folded := folded + {ids[n]};
      }
      ListedSubs(before, c, ids, done);
    }

    /** The outer loop body. */
    method FoldCategory(category: LegacyCategory, target: int, ghost before: Taxonomy, ghost done: set<int>,
      ghost gone: set<int>)
      requires Progress(before, Tables(), target, done, gone) && !referencedRowDeleted
      requires IsLegacyCategory(before, category.id) && ListsSubsOf(before, category.id, category.subCategoryIds)
      requires forall s :: s in done ==> s in before.subs && before.subs[s].categoryId != category.id
      modifies this
      ensures Progress(before, Tables(), target, done + SubsOf(before, category.id), gone + {category.id})
      ensures !referencedRowDeleted
    {
      FoldSubCategories(category.id, category.subCategoryIds, target, before, done, gone);
      CloseCategory(category.id, target, before, done + SubsOf(before, category.id), gone);
    }

    /** The transaction; `legacy` is the answer of its first query. */
    method Consolidate(target: int, legacy: seq<LegacyCategory>)
      requires WellFormed(Tables()) && target in categories && categories[target] == TARGET_SLUG
      requires IsListing(Tables(), legacy)
      requires !referencedRowDeleted
      modifies this
      ensures Consolidated(old(Tables()), Tables(), target)
      ensures !referencedRowDeleted
    {
      ghost var before := Tables();
      ghost var done: set<int>, gone: set<int> := {}, {};
      TargetIsNotLegacy(before, target);
      NothingDone(before, target);
      for k := 0 to |legacy|
        invariant Progress(before, Tables(), target, done, gone) && !referencedRowDeleted
        invariant gone == set i | 0 <= i < k :: legacy[i].id
        invariant forall s :: s in done <==> s in before.subs && before.subs[s].categoryId in gone
      {
        FoldCategory(legacy[k], target, before, done, gone);
        done := done + SubsOf(before, legacy[k].id);
        gone := gone + {legacy[k].id};
      }
      AllFolded(before, Tables(), target, done, gone, legacy);
    }
  }

  ghost function SubsOf(t: Taxonomy, c: int): set<int> {
    set s | s in t.subs && t.subs[s].categoryId == c
  }

  /** The sub-categories folded so far: those of earlier categories, and the first `n` listed. */
  ghost function WithFirst(done: set<int>, ids: seq<int>, n: nat): set<int>
    requires n <= |ids|
  {
    done + set i | 0 <= i < n :: ids[i]
  }

  lemma FirstSubs(done: set<int>, ids: seq<int>)
    ensures WithFirst(done, ids, 0) == done
  {
  }

  lemma NextSub(t: Taxonomy, c: int, ids: seq<int>, n: nat, done: set<int>)
    requires ListsSubsOf(t, c, ids) && n < |ids|
    requires forall s :: s in done ==> s in t.subs && t.subs[s].categoryId != c
    ensures ids[n] in t.subs && t.subs[ids[n]].categoryId == c && ids[n] !in WithFirst(done, ids, n)
    ensures WithFirst(done, ids, n + 1) == WithFirst(done, ids, n) + {ids[n]}
  {
    assert ids[n] in ids;
  }

  lemma ListedSubs(t: Taxonomy, c: int, ids: seq<int>, done: set<int>)
    requires ListsSubsOf(t, c, ids)
    ensures WithFirst(done, ids, |ids|) == done + SubsOf(t, c)
  {
    forall s
      ensures (exists i :: 0 <= i < |ids| && ids[i] == s) <==> s in SubsOf(t, c)
    {
      assert s in ids <==> s in SubsOf(t, c);
    }
  }

  // ------------------------------------------------- statements on the tables

  function WithSub(merchants: map<int, Merchant>, from: int, to: Option<int>): map<int, Merchant> {
    map m | m in merchants ::
      if merchants[m].subCategoryId == Some(from) then merchants[m].(subCategoryId := to) else merchants[m]
  }

  function WithCategory(merchants: map<int, Merchant>, from: int, to: Option<int>): map<int, Merchant> {
    map m | m in merchants ::
      if merchants[m].categoryId == Some(from) then merchants[m].(categoryId := to) else merchants[m]
  }

  function WithoutCategory(m: Merchant, subs: map<int, SubCategory>, c: int): Merchant {
    Merchant(
      if m.categoryId == Some(c) then None else m.categoryId,
      if m.subCategoryId.Some? && m.subCategoryId.value in subs && subs[m.subCategoryId.value].categoryId == c
      then None
      else m.subCategoryId)
  }

  function SubsOutside(subs: map<int, SubCategory>, c: int): map<int, SubCategory> {
    map s | s in subs && subs[s].categoryId != c :: subs[s]
  }

  ghost predicate UsesSub(merchants: map<int, Merchant>, s: int) {
    exists m :: m in merchants && merchants[m].subCategoryId == Some(s)
  }

  ghost predicate UsesCategory(merchants: map<int, Merchant>, c: int) {
    exists m :: m in merchants && merchants[m].categoryId == Some(c)
  }

  ghost predicate HasSubs(subs: map<int, SubCategory>, c: int) {
    exists s :: s in subs && subs[s].categoryId == c
  }

  lemma UnusedSub(merchants: map<int, Merchant>, s: int)
    requires !UsesSub(merchants, s)
    ensures WithSub(merchants, s, None) == merchants
  {
    assert forall m :: m in merchants ==> merchants[m].subCategoryId != Some(s);
  }

  lemma UnusedCategory(merchants: map<int, Merchant>, subs: map<int, SubCategory>, c: int)
    requires !UsesCategory(merchants, c) && !HasSubs(subs, c)
    ensures SubsOutside(subs, c) == subs
    ensures (map m | m in merchants :: WithoutCategory(merchants[m], subs, c)) == merchants
  {
    assert forall s :: s in subs ==> subs[s].categoryId != c;
    assert forall m :: m in merchants ==> merchants[m].categoryId != Some(c);
    assert forall m :: m in merchants ==> WithoutCategory(merchants[m], subs, c) == merchants[m];
  }

  lemma TargetIsNotLegacy(t: Taxonomy, target: int)
    requires target in t.categories && t.categories[target] == TARGET_SLUG
    ensures !IsLegacyCategory(t, target)
  {
  }

  // ------------------------------------------------------- what it keeps

  /** A merchant's references after the sub-categories `done` and categories `gone` have
      been folded. */
  ghost predicate MerchantKept(before: Taxonomy, now: Taxonomy, target: int, done: set<int>, gone: set<int>, m: int)
    requires m in before.merchants && m in now.merchants
  {
    var was, curr := before.merchants[m], now.merchants[m];
    && curr.categoryId ==
         (if was.categoryId.Some? && was.categoryId.value in gone then Some(target) else was.categoryId)
    && (was.subCategoryId.None? ==> curr.subCategoryId.None?)
    && (was.subCategoryId.Some? && was.subCategoryId.value in before.subs ==>
          && curr.subCategoryId.Some? && curr.subCategoryId.value in now.subs
          && now.subs[curr.subCategoryId.value].slug == before.subs[was.subCategoryId.value].slug
          && (was.subCategoryId.value !in done ==> curr.subCategoryId == was.subCategoryId)
          && (was.subCategoryId.value in done ==> now.subs[curr.subCategoryId.value].categoryId == target))
  }

  /** Some sub-category of the target has this slug. */
  ghost predicate InTarget(now: Taxonomy, target: int, slug: string) {
    exists s :: s in now.subs && now.subs[s] == SubCategory(target, slug)
  }

  ghost predicate Represented(before: Taxonomy, now: Taxonomy, target: int, done: set<int>, s: int) {
    s in done && s in before.subs ==> InTarget(now, target, before.subs[s].slug)
  }

  /** The state between two steps of the transaction. */
  ghost predicate Progress(before: Taxonomy, now: Taxonomy, target: int, done: set<int>, gone: set<int>) {
    && WellFormed(before) && WellFormed(now)
    && target in now.categories && !IsLegacyCategory(before, target)
    && (forall s :: s in done ==> IsLegacySub(before, s))
    && (forall c :: c in gone ==> IsLegacyCategory(before, c))
    && now.categories == before.categories - gone
    && now.subs.Keys <= before.subs.Keys
    && (forall s :: s in before.subs && s !in done ==> s in now.subs && now.subs[s] == before.subs[s])
    && (forall s :: s in now.subs && s in done ==> now.subs[s] == SubCategory(target, before.subs[s].slug))
    && (forall s :: Represented(before, now, target, done, s))
    && now.merchants.Keys == before.merchants.Keys
    && (forall m :: m in before.merchants ==> MerchantKept(before, now, target, done, gone, m))
  }

  lemma MergeStep(before: Taxonomy, now: Taxonomy, target: int, done: set<int>, gone: set<int>, s: int, e: int)
    requires Progress(before, now, target, done, gone) && IsLegacySub(before, s) && s !in done
    requires e in now.subs && now.subs[e] == SubCategory(target, now.subs[s].slug)
    ensures !UsesSub(WithSub(now.merchants, s, Some(e)), s)
    ensures Progress(before, Taxonomy(now.categories, now.subs - {s}, WithSub(now.merchants, s, Some(e))), target,
            done + {s}, gone)
  {
    var next := Taxonomy(now.categories, now.subs - {s}, WithSub(now.merchants, s, Some(e)));
    assert e != s;
    forall d
      ensures Represented(before, next, target, done + {s}, d)
    {
      assert Represented(before, now, target, done, d);
      if d == s {
        assert next.subs[e] == SubCategory(target, before.subs[d].slug);
      } else if d in done {
        var r :| r in now.subs && now.subs[r] == SubCategory(target, before.subs[d].slug);
        assert next.subs[r] == SubCategory(target, before.subs[d].slug);
      }
    }
    forall m | m in before.merchants
      ensures MerchantKept(before, next, target, done + {s}, gone, m)
    {
      assert MerchantKept(before, now, target, done, gone, m);
    }
  }

  lemma MoveStep(before: Taxonomy, now: Taxonomy, target: int, done: set<int>, gone: set<int>, s: int)
    requires Progress(before, now, target, done, gone) && IsLegacySub(before, s) && s !in done
    requires forall r :: r in now.subs ==> now.subs[r] != SubCategory(target, now.subs[s].slug)
    ensures Progress(before, now.(subs := now.subs[s := now.subs[s].(categoryId := target)]), target, done + {s}, gone)
  {
    var next := now.(subs := now.subs[s := now.subs[s].(categoryId := target)]);
    forall d
      ensures Represented(before, next, target, done + {s}, d)
    {
      assert Represented(before, now, target, done, d);
      if d == s {
        assert next.subs[s] == SubCategory(target, before.subs[d].slug);
      } else if d in done {
        var r :| r in now.subs && now.subs[r] == SubCategory(target, before.subs[d].slug);
        assert r != s;
        assert next.subs[r] == SubCategory(target, before.subs[d].slug);
      }
    }
    forall m | m in before.merchants
      ensures MerchantKept(before, next, target, done + {s}, gone, m)
    {
      assert MerchantKept(before, now, target, done, gone, m);
    }
  }

  lemma CloseStep(before: Taxonomy, now: Taxonomy, target: int, done: set<int>, gone: set<int>, c: int)
    requires Progress(before, now, target, done, gone) && IsLegacyCategory(before, c)
    requires forall s :: s in before.subs && before.subs[s].categoryId == c ==> s in done
    ensures !UsesCategory(WithCategory(now.merchants, c, Some(target)), c) && !HasSubs(now.subs, c)
    ensures Progress(before, Taxonomy(now.categories - {c}, now.subs, WithCategory(now.merchants, c, Some(target))),
            target, done, gone + {c})
  {
    var next := Taxonomy(now.categories - {c}, now.subs, WithCategory(now.merchants, c, Some(target)));
    assert c != target;
    forall d
      ensures Represented(before, next, target, done, d)
    {
      assert Represented(before, now, target, done, d);
      if d in done {
        var r :| r in now.subs && now.subs[r] == SubCategory(target, before.subs[d].slug);
        assert next.subs[r] == SubCategory(target, before.subs[d].slug);
      }
    }
    forall m | m in before.merchants
      ensures MerchantKept(before, next, target, done, gone + {c}, m)
    {
      assert MerchantKept(before, now, target, done, gone, m);
    }
    assert next.categories == before.categories - (gone + {c});
  }

  lemma NothingDone(before: Taxonomy, target: int)
    requires WellFormed(before) && target in before.categories && !IsLegacyCategory(before, target)
    ensures Progress(before, before, target, {}, {})
  {
  }

  lemma AllFolded(before: Taxonomy, now: Taxonomy, target: int, done: set<int>, gone: set<int>,
    legacy: seq<LegacyCategory>)
    requires Progress(before, now, target, done, gone) && IsListing(before, legacy)
    requires gone == set i | 0 <= i < |legacy| :: legacy[i].id
    requires forall s :: s in done <==> s in before.subs && before.subs[s].categoryId in gone
    ensures Consolidated(before, now, target)
  {
    forall c | IsLegacyCategory(before, c)
      ensures c in gone
    {
      var i :| 0 <= i < |legacy| && legacy[i].id == c;
    }
    assert FullyFolded(before, now, target, done, gone);
  }

  // ------------------------------------------------------- the theorems

  /** The outcome of the transaction: every legacy category and sub-category is folded. */
  ghost predicate Consolidated(before: Taxonomy, after: Taxonomy, target: int) {
    exists done: set<int>, gone: set<int> :: FullyFolded(before, after, target, done, gone)
  }

  ghost predicate FullyFolded(before: Taxonomy, after: Taxonomy, target: int, done: set<int>, gone: set<int>) {
    && Progress(before, after, target, done, gone)
    && (forall s :: IsLegacySub(before, s) ==> s in done)
    && (forall c :: IsLegacyCategory(before, c) ==> c in gone)
  }

  /** No legacy category remains, and no sub-category or merchant still points at one;
      the constraints hold, and rows that were not legacy are as they were. */
  lemma NothingLegacyRemains(before: Taxonomy, after: Taxonomy, target: int)
    requires Consolidated(before, after, target)
    ensures WellFormed(after)
    ensures after.categories == before.categories - LegacyIds(before)
    ensures forall s :: s in after.subs ==> !IsLegacyCategory(before, after.subs[s].categoryId)
    ensures forall m :: m in after.merchants && after.merchants[m].categoryId.Some? ==>
                          !IsLegacyCategory(before, after.merchants[m].categoryId.value)
    ensures forall s :: s in before.subs && !IsLegacySub(before, s) ==>
            s in after.subs && after.subs[s] == before.subs[s]
    ensures forall s :: IsLegacySub(before, s) ==> InTarget(after, target, before.subs[s].slug)
    ensures forall c :: c in after.categories <==>
            c in before.categories && before.categories[c] !in {"food", "restaurants", "food-beverages"}
    ensures forall c :: c in after.categories ==> after.categories[c] == before.categories[c]
  {
    var done, gone :| FullyFolded(before, after, target, done, gone);
    forall c
      ensures c in gone <==> c in LegacyIds(before)
    {
      assert IsLegacyCategory(before, c) <==> c in gone;
    }
    assert gone == LegacyIds(before);
    forall s | IsLegacySub(before, s)
      ensures InTarget(after, target, before.subs[s].slug)
    {
      assert Represented(before, after, target, done, s);
    }
    forall m | m in after.merchants && after.merchants[m].categoryId.Some?
      ensures !IsLegacyCategory(before, after.merchants[m].categoryId.value)
    {
      assert MerchantKept(before, after, target, done, gone, m);
    }
  }

  /** Every merchant keeps the slug of its sub-category, and a merchant whose
      sub-category lay in its own category still has that. */
  lemma MerchantsKeepTheirPlace(before: Taxonomy, after: Taxonomy, target: int, m: int)
    requires Consolidated(before, after, target) && m in before.merchants
    ensures m in after.merchants
    ensures after.merchants[m].categoryId ==
            var was := before.merchants[m].categoryId;
            if was.Some? && IsLegacyCategory(before, was.value) then Some(target) else was
    ensures before.merchants[m].subCategoryId.None? <==> after.merchants[m].subCategoryId.None?
    ensures before.merchants[m].subCategoryId.Some? ==>
              var was, now := before.merchants[m].subCategoryId.value, after.merchants[m].subCategoryId.value;
              && was in before.subs && now in after.subs
              && after.subs[now].slug == before.subs[was].slug
              && (before.merchants[m].categoryId == Some(before.subs[was].categoryId) ==>
                    after.merchants[m].categoryId == Some(after.subs[now].categoryId))
  {
  }

  /** A second run changes nothing. */
  lemma SecondRunChangesNothing(before: Taxonomy, after: Taxonomy, again: Taxonomy, target: int)
    requires Consolidated(before, after, target) && Consolidated(after, again, target)
    ensures again == after
  {
    NothingLegacyRemains(before, after, target);
    forall c
      ensures !IsLegacyCategory(after, c)
    {
      assert c in after.categories ==> c !in LegacyIds(before);
    }
    var done, gone :| FullyFolded(after, again, target, done, gone);
    FoldingNothing(after, again, target, done, gone);
  }

  lemma FoldingNothing(before: Taxonomy, after: Taxonomy, target: int, done: set<int>, gone: set<int>)
    requires Progress(before, after, target, done, gone)
    requires forall c :: !IsLegacyCategory(before, c)
    ensures after == before
  {
    forall s | s in before.subs
      ensures s in after.subs && after.subs[s] == before.subs[s]
    {
      assert s !in done;
    }
    forall m | m in before.merchants
      ensures after.merchants[m] == before.merchants[m]
    {
      var was := before.merchants[m];
      assert MerchantKept(before, after, target, done, gone, m);
      assert was.categoryId.Some? ==> !IsLegacyCategory(before, was.categoryId.value);
      assert was.subCategoryId.Some? ==> !IsLegacySub(before, was.subCategoryId.value);
    }
    assert forall c :: c in before.categories ==> c !in gone;
    assert after.categories == before.categories;
    assert after.subs == before.subs;
    assert after.merchants == before.merchants;
  }
}
