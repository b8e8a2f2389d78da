/**
 * Comparing two run configurations, optionally ignoring the `unique_id`
 * entry (src/snncompare/helper.py).
 */
module ConfigEquality {
  import opened PyValues

  const UniqueIdKey: string := "unique_id"

  /**
   * `dicts_are_equal(left, right, without_unique_id)`: Python `==` on the
   * two dictionaries, on copies without `unique_id` when asked to.
   */
  function DictsAreEqual(left: Dict, right: Dict, withoutUniqueId: bool): bool
  {
    if withoutUniqueId then
      var leftCopy := Remove(left, UniqueIdKey);
      var rightCopy := Remove(right, UniqueIdKey);
      Eq(VDict(leftCopy), VDict(rightCopy))
    else Eq(VDict(left), VDict(right))
  }

  /** Every configuration equals itself. */
  lemma DictsAreEqualRefl(d: Dict, withoutUniqueId: bool)
    ensures DictsAreEqual(d, d, withoutUniqueId)
  {
    EqRefl(VDict(Remove(d, UniqueIdKey)));
    EqRefl(VDict(d));
  }

  /** Ignoring the unique id, a configuration equals itself with any other unique id. */
  lemma UniqueIdIgnored(d: Dict, id: Value)
    ensures DictsAreEqual(Set(d, UniqueIdKey, id), d, true)
  {
    RemoveSet(d, UniqueIdKey, id);
    EqRefl(VDict(Remove(d, UniqueIdKey)));
  }

  /** The same, with the changed unique id on the right. */
  lemma UniqueIdIgnoredOnRight(d: Dict, id: Value)
    ensures DictsAreEqual(d, Set(d, UniqueIdKey, id), true)
  {
    RemoveSet(d, UniqueIdKey, id);
    EqRefl(VDict(Remove(d, UniqueIdKey)));
  }

  /**
   * A setting of `left` that `right` lacks makes the two unequal; this holds
   * for `unique_id` too unless it is ignored.
   */
  lemma MissingSettingDetected(left: Dict, right: Dict, withoutUniqueId: bool, k: string)
    requires k in Keys(left) && k !in Keys(right)
    requires withoutUniqueId ==> k != UniqueIdKey
    ensures !DictsAreEqual(left, right, withoutUniqueId)
  {
    var l := if withoutUniqueId then Remove(left, UniqueIdKey) else left;
    var r := if withoutUniqueId then Remove(right, UniqueIdKey) else right;
    assert k in Keys(l) && k !in Keys(r);
    var i := KeyIndex(l, k);
    NotEntryIn(l[i], r);
  }

  /**
   * A setting that both hold with unequal values makes the two unequal,
   * provided `right` has each key once; this holds for `unique_id` too
   * unless it is ignored.
   */
  lemma ChangedSettingDetected(left: Dict, right: Dict, withoutUniqueId: bool, k: string)
    requires k in Keys(left) && k in Keys(right) && DistinctKeys(right)
    requires !Eq(Get(left, k).value, Get(right, k).value)
    requires withoutUniqueId ==> k != UniqueIdKey
    ensures !DictsAreEqual(left, right, withoutUniqueId)
  {
    if withoutUniqueId {
      RemoveDistinct(right, UniqueIdKey);
      GetRemove(left, UniqueIdKey, k);
      GetRemove(right, UniqueIdKey, k);
      ChangedEntry(Remove(left, UniqueIdKey), Remove(right, UniqueIdKey), k);
    } else {
      ChangedEntry(left, right, k);
    }
  }

  /**
   * A setting of `right` that `left` lacks makes the two unequal, provided
   * `left` has each key once; this holds for `unique_id` too unless it is
   * ignored.
   */
  lemma ExtraSettingDetected(left: Dict, right: Dict, withoutUniqueId: bool, k: string)
    requires k !in Keys(left) && k in Keys(right) && DistinctKeys(left)
    requires withoutUniqueId ==> k != UniqueIdKey
    ensures !DictsAreEqual(left, right, withoutUniqueId)
  {
    if withoutUniqueId {
      RemoveDistinct(left, UniqueIdKey);
      ExtraEntry(Remove(left, UniqueIdKey), Remove(right, UniqueIdKey), k);
    } else {
      ExtraEntry(left, right, k);
    }
  }

  /**
   * The two configurations hold the same settings apart from `unique_id`,
   * with Python-equal values, in whatever order.
   */
  ghost predicate SettingsAgree(left: Dict, right: Dict)
  {
    && Keys(Remove(left, UniqueIdKey)) == Keys(Remove(right, UniqueIdKey))
    && forall k :: k in Keys(left) && k in Keys(right) && k != UniqueIdKey ==>
         Eq(Get(left, k).value, Get(right, k).value)
  }

  /** Configurations whose settings agree apart from `unique_id` compare equal when it is ignored. */
  lemma SettingsAgreeEqual(left: Dict, right: Dict)
    requires DistinctKeys(left) && DistinctKeys(right)
    requires SettingsAgree(left, right)
    ensures DictsAreEqual(left, right, true)
  {
    var l := Remove(left, UniqueIdKey);
    var r := Remove(right, UniqueIdKey);
    RemoveDistinct(left, UniqueIdKey);
    RemoveDistinct(right, UniqueIdKey);
    KeysCard(l);
    KeysCard(r);
    forall i | 0 <= i < |l|
      ensures EntryIn(l[i], r)
    {
      var k := l[i].0;
      KeysIndex(l, i);
      DistinctKeysGet(l, i);
      GetRemove(left, UniqueIdKey, k);
      GetRemove(right, UniqueIdKey, k);
      var j := KeyIndex(r, k);
    }
  }

  /**
   * For Python dictionaries, which hold each key once, ignoring `unique_id`
   * they compare equal exactly when their settings agree.
   */
  lemma DictsAreEqualIffSettingsAgree(left: Dict, right: Dict)
    requires DistinctKeys(left) && DistinctKeys(right)
    ensures DictsAreEqual(left, right, true) <==> SettingsAgree(left, right)
  {
    if SettingsAgree(left, right) {
      SettingsAgreeEqual(left, right);
    } else {
      var l := Remove(left, UniqueIdKey);
      var r := Remove(right, UniqueIdKey);
      if k :| k in Keys(l) && k !in Keys(r) {
        MissingSettingDetected(left, right, true, k);
      } else if k :| k in Keys(r) && k !in Keys(l) {
        ExtraSettingDetected(left, right, true, k);
      } else {
        assert Keys(l) == Keys(r);
        var k :| k in Keys(left) && k in Keys(right) && k != UniqueIdKey && !Eq(Get(left, k).value, Get(right, k).value);
        ChangedSettingDetected(left, right, true, k);
      }
    }
  }

  /** Equal dictionaries of the same length cannot have an extra key on the right. */
  lemma ExtraEntry(l: Dict, r: Dict, k: string)
    requires k !in Keys(l) && k in Keys(r) && DistinctKeys(l)
    ensures !Eq(VDict(l), VDict(r))
  {
    if Eq(VDict(l), VDict(r)) {
      forall k' | k' in Keys(l)
        ensures k' in Keys(r)
      {
        var i := KeyIndex(l, k');
        assert EntryIn(l[i], r);
        var j :| 0 <= j < |r| && r[j].0 == l[i].0 && Eq(l[i].1, r[j].1);
        KeysIndex(r, j);
      }
      assert Keys(l) + {k} <= Keys(r);
      KeysCard(l);
      KeysCard(r);
      assert |Keys(l) + {k}| == |l| + 1;
      SubsetCard(Keys(l) + {k}, Keys(r));
      assert false;
    }
  }

  lemma SubsetCard(a: set<string>, b: set<string>)
    requires a <= b
    ensures |a| <= |b|
  {
    assert b == a + (b - a);
  }

  lemma ChangedEntry(l: Dict, r: Dict, k: string)
    requires k in Keys(l) && k in Keys(r) && DistinctKeys(r)
    requires !Eq(Get(l, k).value, Get(r, k).value)
    ensures !Eq(VDict(l), VDict(r))
  {
    var i := KeyIndex(l, k);
    forall j | 0 <= j < |r| && r[j].0 == k
      ensures !Eq(l[i].1, r[j].1)
    {
      DistinctKeysGet(r, j);
    }
    assert !EntryIn(l[i], r);
  }

  lemma NotEntryIn(e: (string, Value), es: Dict)
    requires e.0 !in Keys(es)
    ensures !EntryIn(e, es)
  {
    forall j | 0 <= j < |es|
      ensures es[j].0 != e.0
    {
      KeysIndex(es, j);
    }
  }
}
