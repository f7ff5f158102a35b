/** The pure part of the session handler: reading the profile document with
    per-field defaults, the seeded document of a first sign-in, and the
    move of the legacy inline transactions into the record collection. The
    move is given as its authors evidently meant it (a fresh record
    reference per entry, the legacy field deleted in the same batch), next
    to the commit as written; the component itself never gets that far,
    since the staging at App.tsx:91 throws. */
module Session {
  import opened Wrappers
  import opened Ledger
  import opened RemoteStore

  /** The groups loaded from an existing document: a present field is taken
      as stored, a missing one falls back to its default. */
  function LoadProfile(d: ProfileDoc, u: User): (r: Groups)
    ensures forall g :: Get(r, g) == if Field(d, g).Some? then Field(d, g).value else Get(SessionDefaults(u), g)
  {
    Groups(
      d.userData.GetOr(SessionUserData(u)),
      d.categories.GetOr(DefaultCategories),
      d.cards.GetOr(DefaultCards),
      d.wishlist.GetOr([]),
      d.acquisitions.GetOr([]),
      d.paidMonths.GetOr(map[]))
  }

  /** The document written for a first-ever user. The legacy field is
      written as `undefined`, which leaves it out. */
  function SeedDoc(u: User): ProfileDoc {
    ProfileDoc(Some(SessionUserData(u)), Some(DefaultCategories), Some(DefaultCards),
               Some([]), Some([]), Some(map[]), Absent)
  }

  /** Loading the seeded document gives back exactly the seeded groups. */
  lemma LoadSeeded(u: User)
    ensures LoadProfile(SeedDoc(u), u) == SessionDefaults(u)
  {
    var r := LoadProfile(SeedDoc(u), u);
    assert Get(r, UserDataGroup) == Get(SessionDefaults(u), UserDataGroup);
    assert Get(r, CardsGroup) == Get(SessionDefaults(u), CardsGroup);
  }

  /** After a reset the document exists but is empty: every group loads as
      its default. */
  lemma LoadEmpty(u: User)
    ensures LoadProfile(EmptyDoc, u) == SessionDefaults(u)
    ensures !NeedsMigration(EmptyDoc)
  {
  }

  /** After a merge-write of a group, loading the document yields the value
      written (for the month map, the stored map merged with it) and leaves
      the other groups as they would have loaded. */
  lemma LoadAfterMerge(d: ProfileDoc, v: GroupValue, u: User)
    ensures !v.PaidMonthsValue? ==> Get(LoadProfile(MergeField(d, v), u), GroupOf(v)) == v
    ensures v.PaidMonthsValue? ==> LoadProfile(MergeField(d, v), u).paidMonths == MergeMonths(d.paidMonths, v.paidMonths)
    ensures forall g :: g != GroupOf(v) ==> Get(LoadProfile(MergeField(d, v), u), g) == Get(LoadProfile(d, u), g)
  {
  }

  /** The migration guard: the legacy field is an array with an element. */
  predicate NeedsMigration(d: ProfileDoc) {
    d.transactions.Entries? && |d.transactions.items| > 0
  }

  ghost predicate Distinct(ids: seq<RecordId>) {
    forall i, j :: 0 <= i < j < |ids| ==> ids[i] != ids[j]
  }

  lemma {:induction false} DistinctCount(ids: seq<RecordId>)
    requires Distinct(ids)
    ensures |set x | x in ids| == |ids|
    decreases |ids|
  {
    if ids != [] {
      var last := |ids| - 1;
      assert Distinct(ids[..last]);
      DistinctCount(ids[..last]);
      assert ids == ids[..last] + [ids[last]];
      assert (set x | x in ids) == (set x | x in ids[..last]) + {ids[last]};
      assert ids[last] !in (set x | x in ids[..last]);
    }
  }

  lemma DistinctPrefix(ids: seq<RecordId>, n: nat)
    requires n + 1 == |ids| && Distinct(ids)
    ensures Distinct(ids[..n]) && ids[n] !in ids[..n]
    ensures (set x | x in ids) == (set x | x in ids[..n]) + {ids[n]}
  {
    assert ids == ids[..n] + [ids[n]];
  }

  /** The records the migration batch stages: legacy entry `i` under fresh
      id `i`. */
  function LegacyRecords(entries: seq<Entry>, ids: seq<RecordId>): (r: map<RecordId, Entry>)
    requires |ids| == |entries| && Distinct(ids)
    ensures r.Keys == set x | x in ids
    ensures forall i :: 0 <= i < |ids| ==> r[ids[i]] == entries[i]
    decreases |entries|
  {
    if entries == [] then map[]
    else
      var n := |entries| - 1;
      DistinctPrefix(ids, n);
      var prefix := LegacyRecords(entries[..n], ids[..n]);
      assert forall i :: 0 <= i < n ==> prefix[ids[i]] == entries[i] by {
        forall i | 0 <= i < n ensures prefix[ids[i]] == entries[i] {
          assert ids[..n][i] == ids[i] && entries[..n][i] == entries[i];
        }
      }
      prefix[ids[n] := entries[n]]
  }

  /** One staged record per legacy entry. */
  lemma LegacyRecordsCount(entries: seq<Entry>, ids: seq<RecordId>)
    requires |ids| == |entries| && Distinct(ids)
    ensures |LegacyRecords(entries, ids)| == |entries|
  {
    DistinctCount(ids);
    assert |LegacyRecords(entries, ids).Keys| == |set x | x in ids|;
  }

  /** The `forEach` that fills the write batch, with the record reference
      taken as `doc(transactionsColRef)`: one staged record per legacy
      entry, under the fresh id the store hands out for it. */
  method StageLegacy(entries: seq<Entry>, ids: seq<RecordId>) returns (staged: map<RecordId, Entry>)
    requires |ids| == |entries| && Distinct(ids)
    ensures staged == LegacyRecords(entries, ids)
  {
    staged := map[];
    for i := 0 to |entries|
      invariant staged == LegacyRecords(entries[..i], ids[..i])
    {
      assert entries[..i + 1][..i] == entries[..i] && ids[..i + 1][..i] == ids[..i];
      assert Distinct(ids[..i + 1]);
      staged := staged[ids[i] := entries[i]];
    }
    assert entries[..|entries|] == entries && ids[..|ids|] == ids;
  }

  /** The batch commit as intended: every staged record is created and the
      legacy field is deleted, together. */
  function CommitMigration(sp: Space, staged: map<RecordId, Entry>): (r: Space)
    requires sp.doc.Some?
    requires staged.Keys !! sp.records.Keys
    ensures r.doc.Some? && !NeedsMigration(r.doc.value)
    ensures forall g :: Field(r.doc.value, g) == Field(sp.doc.value, g)
    ensures r.records.Keys == sp.records.Keys + staged.Keys
    ensures forall k :: k in sp.records ==> r.records[k] == sp.records[k]
    ensures forall k :: k in staged ==> r.records[k] == staged[k]
  {
    Space(Some(sp.doc.value.(transactions := Absent)), sp.records + staged)
  }

  /** Disjoint keys: the commit adds exactly as many records as it stages. */
  lemma DisjointUnionCount(a: map<RecordId, Entry>, b: map<RecordId, Entry>)
    requires a.Keys !! b.Keys
    ensures |a + b| == |a| + |b|
  {
    assert (a + b).Keys == a.Keys + b.Keys;
    assert |(a + b).Keys| == |a.Keys| + |b.Keys|;
  }

  /** The migration only adds records, so a list cached before it stays a
      cache of the collection after it. */
  lemma MigrationKeepsCache(sp: Space, staged: map<RecordId, Entry>, ts: seq<Transaction>)
    requires sp.doc.Some? && staged.Keys !! sp.records.Keys
    requires AllHold(sp, ts)
    ensures AllHold(CommitMigration(sp, staged), ts)
  {
    var r := CommitMigration(sp, staged);
    forall t | t in ts ensures Holds(r, t) {
      assert Holds(sp, t);
    }
  }

  /** The batch commit as the source writes it: the legacy field is
      "cleared" with `{ transactions: undefined }`, which the store drops
      (or refuses), so the document keeps its legacy array. */
  function CommitMigrationAsWritten(sp: Space, staged: map<RecordId, Entry>): (r: Space)
    requires sp.doc.Some?
    requires staged.Keys !! sp.records.Keys
    ensures r.doc == sp.doc
    ensures r.records.Keys == sp.records.Keys + staged.Keys
    ensures forall k :: k in sp.records ==> r.records[k] == sp.records[k]
    ensures forall k :: k in staged ==> r.records[k] == staged[k]
  {
    Space(sp.doc, sp.records + staged)
  }

  /** As written, a second load migrates the same legacy entries again:
      every sign-in adds one more copy of each legacy transaction. */
  lemma AsWrittenMigrationRepeats(sp: Space, ids1: seq<RecordId>, ids2: seq<RecordId>)
    requires sp.doc.Some? && NeedsMigration(sp.doc.value)
    requires |ids1| == |ids2| == |sp.doc.value.transactions.items|
    requires Distinct(ids1) && Distinct(ids2)
    requires forall i :: 0 <= i < |ids1| ==> ids1[i] !in sp.records && ids1[i] !in ids2
    requires forall i :: 0 <= i < |ids2| ==> ids2[i] !in sp.records
    ensures var items := sp.doc.value.transactions.items;
            var once := CommitMigrationAsWritten(sp, LegacyRecords(items, ids1));
            && NeedsMigration(once.doc.value)
            && |CommitMigrationAsWritten(once, LegacyRecords(items, ids2)).records| == |sp.records| + 2 * |items|
  {
    var items := sp.doc.value.transactions.items;
    LegacyRecordsCount(items, ids1);
    LegacyRecordsCount(items, ids2);
    var once := CommitMigrationAsWritten(sp, LegacyRecords(items, ids1));
    DisjointUnionCount(sp.records, LegacyRecords(items, ids1));
    assert LegacyRecords(items, ids2).Keys !! once.records.Keys;
    DisjointUnionCount(once.records, LegacyRecords(items, ids2));
  }

  /** With the legacy field cleared by the commit, the next load finds
      nothing to migrate: the migration runs once. */
  lemma MigrationRunsOnce(sp: Space, ids: seq<RecordId>)
    requires sp.doc.Some? && NeedsMigration(sp.doc.value)
    requires |ids| == |sp.doc.value.transactions.items| && Distinct(ids)
    requires forall i :: 0 <= i < |ids| ==> ids[i] !in sp.records
    ensures var items := sp.doc.value.transactions.items;
            var once := CommitMigration(sp, LegacyRecords(items, ids));
            && !NeedsMigration(once.doc.value)
            && |once.records| == |sp.records| + |items|
  {
    var items := sp.doc.value.transactions.items;
    LegacyRecordsCount(items, ids);
    DisjointUnionCount(sp.records, LegacyRecords(items, ids));
  }
}
