/**
 * JSON merge patches (section 2 of RFC 7386) as the controller's client computes them, known to desired, and as the
 * apiserver applies them to whatever is stored by then. Only the depth a WorkloadRecommendation needs is modelled:
 * scalars, and tables of flat objects.
 */
module MergePatch {
  import opened Common

  /** One member of a patch: a value to set, or null to remove it. */
  datatype Change<V> = Put(value: V) | Delete

  datatype EntryPatch<F, V> = Merge(fields: map<F, Change<V>>) | Drop

  /** A table's part of a patch: absent, null for a table that became empty, or an object of entries. */
  datatype TablePatch<K, F, V> = Untouched | DropAll | Entries(entries: map<K, EntryPatch<F, V>>)

  function PatchScalar<T(==)>(stored: T, known: T, desired: T): T {
    if known == desired then stored else desired
  }

  function DiffFields<F(==), V(==)>(known: map<F, V>, desired: map<F, V>): map<F, Change<V>> {
    map f | f in known.Keys + desired.Keys && (f !in known || f !in desired || known[f] != desired[f]) ::
      if f in desired then Put(desired[f]) else Delete
  }

  function ApplyFields<F(==), V(==)>(stored: map<F, V>, patch: map<F, Change<V>>): map<F, V> {
    map f | f in stored.Keys + patch.Keys && (f in patch ==> patch[f].Put?) ::
      if f in patch then patch[f].value else stored[f]
  }

  function Entry<K(==), F(==), V(==)>(table: map<K, map<F, V>>, k: K): map<F, V> {
    if k in table then table[k] else map[]
  }

  function DiffTable<K(==), F(==), V(==)>(known: map<K, map<F, V>>, desired: map<K, map<F, V>>): TablePatch<K, F, V> {
    if known == desired then Untouched
    else if desired == map[] then DropAll
    else Entries(map k | k in known.Keys + desired.Keys && (k !in known || k !in desired || known[k] != desired[k]) ::
                   if k in desired then Merge(DiffFields(Entry(known, k), desired[k])) else Drop)
  }

  function ApplyTable<K(==), F(==), V(==)>(stored: map<K, map<F, V>>, patch: TablePatch<K, F, V>): map<K, map<F, V>> {
    match patch
    case Untouched => stored
    case DropAll => map[]
    case Entries(entries) =>
      map k | k in stored.Keys + entries.Keys && (k in entries ==> entries[k].Merge?) ::
        if k in entries then ApplyFields(Entry(stored, k), entries[k].fields) else stored[k]
  }

  lemma FieldsRoundTrip<F, V>(known: map<F, V>, desired: map<F, V>)
    ensures ApplyFields(known, DiffFields(known, desired)) == desired
  {
  }

  /** A patch applied to the very table it was computed against leaves the table desired. */
  lemma TableRoundTrip<K, F, V>(known: map<K, map<F, V>>, desired: map<K, map<F, V>>)
    ensures ApplyTable(known, DiffTable(known, desired)) == desired
  {
    var result := ApplyTable(known, DiffTable(known, desired));
    forall k | k in desired ensures k in result && result[k] == desired[k] {
      FieldsRoundTrip(Entry(known, k), desired[k]);
    }
  }

  /** The entry `stored` has what `desired` has wherever a patch from `known` says nothing, and nothing besides. */
  predicate FieldsAgree<F(==), V(==)>(stored: map<F, V>, known: map<F, V>, desired: map<F, V>) {
    && (forall f :: f in stored && f !in known ==> f in desired)
    && (forall f :: f in known && f in desired && known[f] == desired[f] ==> f in stored && stored[f] == desired[f])
  }

  /** The same of a table, an entry the patch says something about being compared field by field. */
  predicate TablesAgree<K(==), F(==), V(==)>(stored: map<K, map<F, V>>, known: map<K, map<F, V>>,
                                             desired: map<K, map<F, V>>) {
    if known == desired then stored == desired
    else
      || desired == map[]
      || (&& (forall k :: k in stored && k !in known ==> k in desired)
          && (forall k :: k in known && k in desired && known[k] == desired[k] ==> k in stored && stored[k] == desired[k])
          && (forall k :: k in desired && (k in known ==> known[k] != desired[k]) ==>
                FieldsAgree(Entry(stored, k), Entry(known, k), desired[k])))
  }

  lemma FieldsReachExactly<F, V>(stored: map<F, V>, known: map<F, V>, desired: map<F, V>)
    ensures ApplyFields(stored, DiffFields(known, desired)) == desired <==> FieldsAgree(stored, known, desired)
  {
    var result := ApplyFields(stored, DiffFields(known, desired));
    if FieldsAgree(stored, known, desired) {
      assert forall f :: f in result <==> f in desired;
    } else if f :| f in stored && f !in known && f !in desired {
      assert f in result;
    } else {
      var f :| f in known && f in desired && known[f] == desired[f] && !(f in stored && stored[f] == desired[f]);
      assert f !in DiffFields(known, desired);
    }
  }

  /** Applied to any table at all, a patch leaves the table desired exactly where it meets `TablesAgree`. */
  lemma TableReachesExactly<K(!new), F, V>(stored: map<K, map<F, V>>, known: map<K, map<F, V>>, desired: map<K, map<F, V>>)
    ensures ApplyTable(stored, DiffTable(known, desired)) == desired <==> TablesAgree(stored, known, desired)
  {
    if known != desired && desired != map[] {
      if TablesAgree(stored, known, desired) {
        AgreedTableReaches(stored, known, desired);
      } else if ApplyTable(stored, DiffTable(known, desired)) == desired {
        ReachedTableAgrees(stored, known, desired);
      }
    }
  }

  lemma AgreedEntryReaches<K, F, V>(stored: map<K, map<F, V>>, known: map<K, map<F, V>>, desired: map<K, map<F, V>>, k: K)
    requires known != desired && desired != map[] && TablesAgree(stored, known, desired)
    ensures var result := ApplyTable(stored, DiffTable(known, desired));
            (k in result <==> k in desired) && (k in desired ==> result[k] == desired[k])
  {
    if k in desired {
      FieldsReachExactly(Entry(stored, k), Entry(known, k), desired[k]);
    }
  }

  lemma AgreedTableReaches<K(!new), F, V>(stored: map<K, map<F, V>>, known: map<K, map<F, V>>, desired: map<K, map<F, V>>)
    requires known != desired && desired != map[] && TablesAgree(stored, known, desired)
    ensures ApplyTable(stored, DiffTable(known, desired)) == desired
  {
    var result := ApplyTable(stored, DiffTable(known, desired));
    forall k ensures (k in result <==> k in desired) && (k in desired ==> result[k] == desired[k]) {
      AgreedEntryReaches(stored, known, desired, k);
    }
    SameMap(result, desired);
  }

  lemma SameMap<K(!new), V>(a: map<K, V>, b: map<K, V>)
    requires forall k :: (k in a <==> k in b) && (k in b ==> a[k] == b[k])
    ensures a == b
  {
  }

  lemma ReachedTableAgrees<K, F, V>(stored: map<K, map<F, V>>, known: map<K, map<F, V>>, desired: map<K, map<F, V>>)
    requires known != desired && desired != map[] && ApplyTable(stored, DiffTable(known, desired)) == desired
    ensures TablesAgree(stored, known, desired)
  {
    var result := ApplyTable(stored, DiffTable(known, desired));
    assert result == desired;
    forall k | k in stored && k !in known ensures k in desired {
      assert k !in desired ==> k in result;
    }
    forall k | k in desired && (k in known ==> known[k] != desired[k])
      ensures FieldsAgree(Entry(stored, k), Entry(known, k), desired[k])
    {
      assert result[k] == ApplyFields(Entry(stored, k), DiffFields(Entry(known, k), desired[k]));
      FieldsReachExactly(Entry(stored, k), Entry(known, k), desired[k]);
    }
    forall k | k in known && k in desired && known[k] == desired[k] ensures k in stored && stored[k] == desired[k] {
      assert k in result;
    }
  }

  /** A patch that only adds entries keeps every entry stored, and adds to it at most. */
  lemma AdditionsKeepEntries<K, F, V>(stored: map<K, map<F, V>>, known: map<K, map<F, V>>, desired: map<K, map<F, V>>)
    requires forall k :: k in known ==> k in desired && desired[k] == known[k]
    ensures var result := ApplyTable(stored, DiffTable(known, desired));
            && (forall k :: k in result <==> k in stored || (k in desired && k !in known))
            && (forall k :: k in stored && (k in known || k !in desired) ==> result[k] == stored[k])
            && (forall k :: k in desired && k !in known && k !in stored ==> result[k] == desired[k])
  {
    var result := ApplyTable(stored, DiffTable(known, desired));
    if known != desired {
      assert desired != map[];
      forall k | k in desired && k !in known && k !in stored ensures result[k] == desired[k] {
        FieldsRoundTrip(map[], desired[k]);
      }
    }
  }
}
