/** The remote document store the component talks to, reduced to what it
    keeps per user: the profile document `users/{uid}` and the record
    collection `users/{uid}/transactions`. Each write is a function from the
    old store to the new one; whether the call resolves or rejects is left to
    the caller. */
module RemoteStore {
  import opened Wrappers
  import opened Ledger
  import opened LocalLists

  /** The legacy inline `transactions` field of the profile document. */
  datatype Legacy = Absent | NotAnArray | Entries(items: seq<Entry>)

  /** The profile document: each group's field may be missing. */
  datatype ProfileDoc = ProfileDoc(
    userData: Option<UserData>,
    categories: Option<Categories>,
    cards: Option<seq<Card>>,
    wishlist: Option<seq<WishlistItem>>,
    acquisitions: Option<seq<Acquisition>>,
    paidMonths: Option<PaidMonths>,
    transactions: Legacy)

  /** The document `{}`. */
  const EmptyDoc: ProfileDoc := ProfileDoc(None, None, None, None, None, None, Absent)

  /** The stored value of one group, if the field is present. */
  function Field(d: ProfileDoc, g: Group): (r: Option<GroupValue>)
    ensures r.Some? ==> GroupOf(r.value) == g
  {
    match g
    case UserDataGroup => if d.userData.Some? then Some(UserDataValue(d.userData.value)) else None
    case CategoriesGroup => if d.categories.Some? then Some(CategoriesValue(d.categories.value)) else None
    case CardsGroup => if d.cards.Some? then Some(CardsValue(d.cards.value)) else None
    case WishlistGroup => if d.wishlist.Some? then Some(WishlistValue(d.wishlist.value)) else None
    case AcquisitionsGroup => if d.acquisitions.Some? then Some(AcquisitionsValue(d.acquisitions.value)) else None
    case PaidMonthsGroup => if d.paidMonths.Some? then Some(PaidMonthsValue(d.paidMonths.value)) else None
  }

  /** `{ merge: true }` on the map-valued `paidMonths` field: the store
      merges maps key by key, so the written keys take their new values and
      the stored keys not written stay; an empty map is written as it is. */
  function MergeMonths(stored: Option<PaidMonths>, written: PaidMonths): (r: PaidMonths)
    ensures written == map[] ==> r == map[]
    ensures written != map[] ==> r.Keys == written.Keys + (if stored.Some? then stored.value.Keys else {})
    ensures forall k :: k in written ==> r[k] == written[k]
    ensures stored.Some? && written != map[] ==> forall k :: k in stored.value && k !in written ==> r[k] == stored.value[k]
  {
    if written == map[] || stored.None? then written else stored.value + written
  }

  /** A merge-write of one group. The profile, the categories and the three
      arrays are written whole: the profile and the categories always carry
      all of their keys, and arrays are replaced. The month map is merged key
      by key. Every other field, the legacy one included, is left as it was. */
  function MergeField(d: ProfileDoc, v: GroupValue): (r: ProfileDoc)
    ensures !v.PaidMonthsValue? ==> Field(r, GroupOf(v)) == Some(v)
    ensures v.PaidMonthsValue? ==> r.paidMonths == Some(MergeMonths(d.paidMonths, v.paidMonths))
    ensures forall g :: g != GroupOf(v) ==> Field(r, g) == Field(d, g)
    ensures r.transactions == d.transactions
  {
    match v
    case UserDataValue(x) => d.(userData := Some(x))
    case CategoriesValue(x) => d.(categories := Some(x))
    case CardsValue(x) => d.(cards := Some(x))
    case WishlistValue(x) => d.(wishlist := Some(x))
    case AcquisitionsValue(x) => d.(acquisitions := Some(x))
    case PaidMonthsValue(x) => d.(paidMonths := Some(MergeMonths(d.paidMonths, x)))
  }

  /** A month key the local map no longer holds is still stored, with its
      old value, after the merge-write, unless the local map has become
      empty: then the stored map is replaced by the empty one. */
  lemma MergeKeepsUnwrittenMonth(d: ProfileDoc, written: PaidMonths, k: string)
    requires d.paidMonths.Some? && k in d.paidMonths.value && k !in written
    ensures var r := MergeField(d, PaidMonthsValue(written)).paidMonths;
            && r.Some?
            && (written != map[] ==> k in r.value && r.value[k] == d.paidMonths.value[k])
            && (written == map[] ==> r.value == map[])
  {
  }

  /** What the store holds for one user: the profile document, if any, and
      the transaction records by id. */
  datatype Space = Space(doc: Option<ProfileDoc>, records: map<RecordId, Entry>)

  type Store = map<Uid, Space>

  /** A user the store knows nothing about has no document and no records. */
  function SpaceOf(s: Store, uid: Uid): Space {
    if uid in s then s[uid] else Space(None, map[])
  }

  /** Replaces one user's space; every other user's is untouched. */
  function PutSpace(s: Store, uid: Uid, sp: Space): (r: Store)
    ensures SpaceOf(r, uid) == sp
    ensures forall v :: v != uid ==> SpaceOf(r, v) == SpaceOf(s, v)
  {
    s[uid := sp]
  }

  /** The local entry `t` agrees with the stored record of the same id. */
  predicate Holds(sp: Space, t: Transaction) {
    t.id in sp.records && sp.records[t.id] == t.entry
  }

  /** Every local entry agrees with the stored record of the same id: the
      local list is a cache of the collection. */
  ghost predicate AllHold(sp: Space, ts: seq<Transaction>) {
    forall t :: t in ts ==> Holds(sp, t)
  }

  /** `setDoc(ref, data, { merge: true })` of one group, creating the
      document when it does not exist. The records are not touched. */
  function MergeWrite(sp: Space, v: GroupValue): (r: Space)
    ensures r.records == sp.records
    ensures r.doc.Some?
    ensures !v.PaidMonthsValue? ==> Field(r.doc.value, GroupOf(v)) == Some(v)
    ensures v.PaidMonthsValue? ==>
              r.doc.value.paidMonths == Some(MergeMonths(if sp.doc.Some? then sp.doc.value.paidMonths else None, v.paidMonths))
    ensures sp.doc.None? ==> forall g :: g != GroupOf(v) ==> Field(r.doc.value, g).None?
    ensures sp.doc.Some? ==> forall g :: g != GroupOf(v) ==> Field(r.doc.value, g) == Field(sp.doc.value, g)
    ensures sp.doc.Some? ==> r.doc.value.transactions == sp.doc.value.transactions
  {
    sp.(doc := Some(MergeField(sp.doc.GetOr(EmptyDoc), v)))
  }

  /** `addDoc`: a new record under an id the store has not used. */
  function AddRecord(sp: Space, id: RecordId, e: Entry): (r: Space)
    requires id !in sp.records
    ensures r.doc == sp.doc
    ensures r.records.Keys == sp.records.Keys + {id} && r.records[id] == e
    ensures forall k :: k in sp.records ==> r.records[k] == sp.records[k]
  {
    sp.(records := sp.records[id := e])
  }

  /** `deleteDoc`: the record is gone; deleting a missing record succeeds. */
  function RemoveRecord(sp: Space, id: RecordId): (r: Space)
    ensures r.doc == sp.doc
    ensures r.records.Keys == sp.records.Keys - {id}
    ensures forall k :: k in r.records ==> r.records[k] == sp.records[k]
  {
    sp.(records := sp.records - {id})
  }

  /** `updateDoc` of description, amount and date on an existing record. */
  function UpdateRecord(sp: Space, id: RecordId, form: EditForm): (r: Space)
    requires id in sp.records
    ensures r.doc == sp.doc
    ensures r.records.Keys == sp.records.Keys
    ensures r.records[id] == Patch(sp.records[id], form)
    ensures forall k :: k in sp.records && k != id ==> r.records[k] == sp.records[k]
  {
    sp.(records := sp.records[id := Patch(sp.records[id], form)])
  }

  /** Creating a record under a fresh id and prepending it locally keeps the
      local list a cache of the collection. */
  lemma AddKeepsCache(sp: Space, ts: seq<Transaction>, id: RecordId, e: Entry)
    requires AllHold(sp, ts) && id !in sp.records
    ensures AllHold(AddRecord(sp, id, e), [Transaction(id, e)] + ts)
  {
    var r := AddRecord(sp, id, e);
    forall t | t in [Transaction(id, e)] + ts ensures Holds(r, t) {
      if t != Transaction(id, e) {
        assert t in ts;
      }
    }
  }

  /** The store's fresh id is new to a cached list, so prepending the new
      entry keeps its ids unique. */
  lemma AddKeepsUniqueIds(sp: Space, ts: seq<Transaction>, id: RecordId, e: Entry)
    requires AllHold(sp, ts) && UniqueIds(ts) && id !in sp.records
    ensures UniqueIds([Transaction(id, e)] + ts)
  {
    var r := [Transaction(id, e)] + ts;
    forall i, j | 0 <= i < j < |r| ensures r[i].id != r[j].id {
      assert r[j] == ts[j - 1] && Holds(sp, ts[j - 1]);
      if i > 0 {
        assert r[i] == ts[i - 1];
      }
    }
  }

  /** Deleting a record and filtering its id out locally keeps the cache. */
  lemma DeleteKeepsCache(sp: Space, ts: seq<Transaction>, id: RecordId)
    requires AllHold(sp, ts)
    ensures AllHold(RemoveRecord(sp, id), WithoutTransaction(ts, id))
  {
    var r := RemoveRecord(sp, id);
    forall t | t in WithoutTransaction(ts, id) ensures Holds(r, t) {
      assert t in ts && t.id != id;
    }
  }

  /** Updating a record's three editable fields and replacing the local
      entries of that id by the edited copy of a cached entry keeps the
      cache. */
  lemma EditKeepsCache(sp: Space, ts: seq<Transaction>, e: Transaction, form: EditForm)
    requires AllHold(sp, ts) && e in ts
    ensures e.id in sp.records
    ensures AllHold(UpdateRecord(sp, e.id, form), ApplyEdit(ts, e.id, Transaction(e.id, Patch(e.entry, form))))
  {
    var r := UpdateRecord(sp, e.id, form);
    var edited := ApplyEdit(ts, e.id, Transaction(e.id, Patch(e.entry, form)));
    forall t | t in edited ensures Holds(r, t) {
      var i :| 0 <= i < |edited| && edited[i] == t;
      if ts[i].id != e.id {
        assert t == ts[i] && t in ts;
      }
    }
  }

  /** The entries of a record collection as a list: one per record, each with
      its record's id and fields. */
  predicate Mirrors(ts: seq<Transaction>, m: map<RecordId, Entry>) {
    && |ts| == |m|
    && (set t | t in ts :: t.id) == m.Keys
    && forall t :: t in ts ==> t.id in m && m[t.id] == t.entry
  }

  lemma MirrorsHold(sp: Space, ts: seq<Transaction>)
    requires Mirrors(ts, sp.records)
    ensures AllHold(sp, ts)
  {
  }

  /** A listing of a collection holds each id once. */
  lemma MirrorsUnique(ts: seq<Transaction>, m: map<RecordId, Entry>)
    requires Mirrors(ts, m)
    ensures UniqueIds(ts)
  {
    assert |m.Keys| == |m|;
    CountedIdsUnique(ts);
  }

  lemma IdsSnoc(ts: seq<Transaction>, t: Transaction)
    ensures (set x | x in ts + [t] :: x.id) == (set x | x in ts :: x.id) + {t.id}
  {
  }

  /** `getDocs(collection).docs.map(doc => ({ ...doc.data(), id: doc.id }))`.
      The order in which the store returns the records is not fixed here. */
  method ListRecords(m: map<RecordId, Entry>) returns (ts: seq<Transaction>)
    ensures Mirrors(ts, m)
  {
    ts := [];
    var rest := m.Keys;
    while rest != {}
      invariant rest <= m.Keys
      invariant (set t | t in ts :: t.id) == m.Keys - rest
      invariant |ts| + |rest| == |m.Keys|
      invariant forall t :: t in ts ==> t.id in m && m[t.id] == t.entry
      decreases |rest|
    {
      var k :| k in rest;
      var t := Transaction(k, m[k]);
      IdsSnoc(ts, t);
      ts := ts + [t];
      rest := rest - {k};
    }
  }
}
