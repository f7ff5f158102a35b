/** The component's state and its handlers: the session handler with its
    load (which stops at a legacy array), the mutation gateway, the
    persistence effects and the reset. Every remote call is awaited before
    the local state changes; `ok` (or `failure`) says whether the call
    resolved. A rejected call, or a throw, ends the handler where it
    stands. */
module AppState {
  import opened Wrappers
  import opened Ledger
  import opened LocalLists
  import opened RemoteStore
  import opened Session
  import opened Aggregator

  /** What a delete confirmation acts on: an acquisition by its numeric id,
      or a transaction by its record id. */
  datatype DeleteTarget = AcquisitionTarget(num: int) | RecordTarget(key: RecordId)

  /** JavaScript truthiness of the pending id: `0` and `""` are falsy. */
  predicate Truthy(t: DeleteTarget) {
    match t
    case AcquisitionTarget(n) => n != 0
    case RecordTarget(k) => k != ""
  }

  /** The remote call of a load that rejects: reading the profile document,
      seeding it, or listing the records. */
  datatype LoadStep = ReadStep | SeedStep | ListStep

  /** Every field of the component, as one value. */
  datatype State = State(
    user: Option<User>,
    loading: bool,
    userData: UserData,
    categories: Categories,
    cards: seq<Card>,
    transactions: seq<Transaction>,
    wishlist: seq<WishlistItem>,
    acquisitions: seq<Acquisition>,
    paidMonths: PaidMonths,
    deleteModalOpen: bool,
    pendingDelete: Option<DeleteTarget>,
    resetModalOpen: bool,
    editModalOpen: bool,
    editing: Option<Transaction>,
    remote: Store)

  /** The state a freshly mounted component starts from. */
  function InitialState(remote: Store): State {
    State(None, true, SignedOutUserData, DefaultCategories, DefaultCards, [], [], [], map[],
          false, None, false, false, None, remote)
  }

  /** Whether the load of an existing document `d` reaches the listing: the
      read resolved and there is no legacy array to migrate. With a
      non-empty legacy array the handler throws while staging the batch
      (App.tsx:91 asks for a collection reference without a path), after the
      groups are set and before anything is written. */
  predicate ReachesListing(d: ProfileDoc, failure: Option<LoadStep>) {
    failure != Some(ReadStep) && !NeedsMigration(d)
  }

  /** Whether the session handler runs to its end, where loading stops. */
  predicate LoadCompletes(sp: Space, failure: Option<LoadStep>) {
    match sp.doc
    case None => failure != Some(ReadStep) && failure != Some(SeedStep)
    case Some(d) => ReachesListing(d, failure) && failure != Some(ListStep)
  }

  /** The local groups after the session handler: loaded with defaults from
      an existing document, three of them set after seeding a new one. */
  function GroupsAfterSignIn(g: Groups, sp: Space, u: User, failure: Option<LoadStep>): Groups {
    if failure == Some(ReadStep) then g
    else match sp.doc
      case None =>
        if failure == Some(SeedStep) then g
        else g.(userData := SessionUserData(u), categories := DefaultCategories, cards := DefaultCards)
      case Some(d) => LoadProfile(d, u)
  }

  /** The store after the session handler: the seeded document for a
      first-ever user; an existing document is only read. */
  function StoreAfterSignIn(s: Store, u: User, failure: Option<LoadStep>): Store {
    var sp := SpaceOf(s, u.uid);
    if failure != Some(ReadStep) && failure != Some(SeedStep) && sp.doc.None?
    then PutSpace(s, u.uid, sp.(doc := Some(SeedDoc(u))))
    else s
  }

  /** As written, a document holding a non-empty legacy array is never loaded
      to the end, whatever the calls would answer, and the store is left as
      it was: every later sign-in stalls the same way, with loading still on
      and the local list never filled. */
  lemma LegacyLoadStalls(s: Store, u: User, failure: Option<LoadStep>, later: Option<LoadStep>)
    requires SpaceOf(s, u.uid).doc.Some? && NeedsMigration(SpaceOf(s, u.uid).doc.value)
    ensures !LoadCompletes(SpaceOf(s, u.uid), failure)
    ensures StoreAfterSignIn(s, u, failure) == s
    ensures !LoadCompletes(SpaceOf(StoreAfterSignIn(s, u, failure), u.uid), later)
  {
  }

  /** A sign-in that meets no rejection completes exactly when there is no
      legacy array to migrate. A completed sign-in leaves a document with
      nothing to seed or migrate, so a second one completes too and writes
      nothing. */
  lemma SignInSettles(s: Store, u: User)
    ensures var sp := SpaceOf(s, u.uid);
            LoadCompletes(sp, None) <==> !(sp.doc.Some? && NeedsMigration(sp.doc.value))
    ensures var s1 := StoreAfterSignIn(s, u, None);
            LoadCompletes(SpaceOf(s, u.uid), None) ==>
              && SpaceOf(s1, u.uid).doc.Some?
              && LoadCompletes(SpaceOf(s1, u.uid), None)
              && StoreAfterSignIn(s1, u, None) == s1
  {
  }

  /** After the reset and the reload, the next sign-in finds the empty
      document: every group falls back to its session default, nothing is
      written, the load completes, and the records, which the reset kept,
      are listed again. */
  lemma ResetThenSignIn(s: Store, u: User, g: Groups)
    ensures var reset := PutSpace(s, u.uid, SpaceOf(s, u.uid).(doc := Some(EmptyDoc)));
            && GroupsAfterSignIn(g, SpaceOf(reset, u.uid), u, None) == SessionDefaults(u)
            && StoreAfterSignIn(reset, u, None) == reset
            && LoadCompletes(SpaceOf(reset, u.uid), None)
            && SpaceOf(reset, u.uid).records == SpaceOf(s, u.uid).records
  {
  }

  /** A first-ever sign-in seeds the document; loading it later gives the
      same six groups as the defaults the seed was built from. */
  lemma SeedThenSignIn(s: Store, u: User, g: Groups)
    requires SpaceOf(s, u.uid).doc.None?
    ensures var s1 := StoreAfterSignIn(s, u, None);
            && GroupsAfterSignIn(g, SpaceOf(s1, u.uid), u, None) == SessionDefaults(u)
            && GroupsAfterSignIn(g, SpaceOf(s, u.uid), u, None) == g.(userData := SessionUserData(u), categories := DefaultCategories, cards := DefaultCards)
  {
  }

  class App {
    var user: Option<User>
    var loading: bool
    var userData: UserData
    var categories: Categories
    var cards: seq<Card>
    var transactions: seq<Transaction>
    var wishlist: seq<WishlistItem>
    var acquisitions: seq<Acquisition>
    var paidMonths: PaidMonths
    var deleteModalOpen: bool
    var pendingDelete: Option<DeleteTarget>
    var resetModalOpen: bool
    var editModalOpen: bool
    var editing: Option<Transaction>
    /** The remote store, which the handlers write through. */
    var remote: Store

    function Snapshot(): State
      reads this
    {
      State(user, loading, userData, categories, cards, transactions, wishlist, acquisitions, paidMonths,
            deleteModalOpen, pendingDelete, resetModalOpen, editModalOpen, editing, remote)
    }

    function LocalGroups(): Groups
      reads this`userData, this`categories, this`cards, this`wishlist, this`acquisitions, this`paidMonths
    {
      Groups(userData, categories, cards, wishlist, acquisitions, paidMonths)
    }

    /** Signed out, there are no local transactions; signed in, each one
        agrees with the signed-in user's record of the same id, and no two
        share an id. */
    ghost predicate Valid()
      reads this`user, this`transactions, this`remote
    {
      if user.None? then transactions == []
      else AllHold(SpaceOf(remote, user.value.uid), transactions) && UniqueIds(transactions)
    }

    constructor (store: Store)
      ensures Snapshot() == InitialState(store)
      ensures Valid()
    {
      user, loading := None, true;
      userData, categories, cards := SignedOutUserData, DefaultCategories, DefaultCards;
      transactions, wishlist, acquisitions, paidMonths := [], [], [], map[];
      deleteModalOpen, pendingDelete, resetModalOpen := false, None, false;
      editModalOpen, editing := false, None;
      remote := store;
    }

    /** The authentication handler for a signed-in user. An existing
        document is loaded group by group with defaults and the records are
        listed and sorted newest first; a legacy array stops the handler
        before the listing. A missing document is seeded, and then only the
        profile, categories and cards are set locally. */
    method SignIn(u: User, failure: Option<LoadStep>)
      modifies this`user, this`loading, this`transactions, this`remote
      modifies this`userData, this`categories, this`cards, this`wishlist, this`acquisitions, this`paidMonths
      ensures user == Some(u)
      ensures LocalGroups() == GroupsAfterSignIn(old(LocalGroups()), old(SpaceOf(remote, u.uid)), u, failure)
      ensures remote == StoreAfterSignIn(old(remote), u, failure)
      ensures loading == (old(loading) && !LoadCompletes(old(SpaceOf(remote, u.uid)), failure))
      ensures if old(SpaceOf(remote, u.uid)).doc.Some? && LoadCompletes(old(SpaceOf(remote, u.uid)), failure)
              then SortedByDateDesc(transactions) && Mirrors(transactions, SpaceOf(remote, u.uid).records)
              else transactions == old(transactions)
      ensures old(Valid()) && (old(user).Some? ==> old(user).value.uid == u.uid) ==> Valid()
    {
      user := Some(u);
      if failure == Some(ReadStep) {
        return;
      }
      if SpaceOf(remote, u.uid).doc.Some? {
        LoadDocument(u, failure);
      } else {
        SeedDocument(u, failure);
      }
    }

    /** The branch of the handler for an existing document: the groups are
        set, then the records are listed unless the document holds a legacy
        array. Nothing is written to the store. */
    method LoadDocument(u: User, failure: Option<LoadStep>)
      requires user == Some(u) && failure != Some(ReadStep) && SpaceOf(remote, u.uid).doc.Some?
      modifies this`loading, this`transactions
      modifies this`userData, this`categories, this`cards, this`wishlist, this`acquisitions, this`paidMonths
      ensures LocalGroups() == LoadProfile(SpaceOf(remote, u.uid).doc.value, u)
      ensures loading == (old(loading) && !LoadCompletes(SpaceOf(remote, u.uid), failure))
      ensures if LoadCompletes(SpaceOf(remote, u.uid), failure)
              then SortedByDateDesc(transactions) && Mirrors(transactions, SpaceOf(remote, u.uid).records)
                   && AllHold(SpaceOf(remote, u.uid), transactions)
              else transactions == old(transactions)
      ensures old(Valid()) ==> Valid()
    {
      var d := SpaceOf(remote, u.uid).doc.value;
      SetGroups(LoadProfile(d, u));
      if NeedsMigration(d) {
        // Staging the first legacy entry throws (App.tsx:91): the handler
        // ends before any write, the listing, or the end of loading.
        return;
      }
      if failure == Some(ListStep) {
        return;
      }
      ListAndFinish(u.uid);
    }

    /** The listing that ends a load: the sorted records replace the local
        list and loading stops. */
    method ListAndFinish(uid: Uid)
      requires user.Some? && user.value.uid == uid
      modifies this`loading, this`transactions
      ensures SortedByDateDesc(transactions) && Mirrors(transactions, SpaceOf(remote, uid).records)
      ensures !loading && Valid()
    {
      LoadTransactions(uid);
      loading := false;
    }

    /** Sets all six groups at once. */
    method SetGroups(g: Groups)
      modifies this`userData, this`categories, this`cards, this`wishlist, this`acquisitions, this`paidMonths
      ensures LocalGroups() == g
    {
      userData, categories, cards := g.userData, g.categories, g.cards;
      wishlist, acquisitions, paidMonths := g.wishlist, g.acquisitions, g.paidMonths;
    }

    /** Lists the collection and keeps it sorted by date, newest first. */
    method LoadTransactions(uid: Uid)
      modifies this`transactions
      ensures SortedByDateDesc(transactions) && Mirrors(transactions, SpaceOf(remote, uid).records)
      ensures AllHold(SpaceOf(remote, uid), transactions) && UniqueIds(transactions)
    {
      var listed := ListRecords(SpaceOf(remote, uid).records);
      transactions := SortByDateDesc(listed);
      assert forall t :: t in transactions <==> t in listed by {
        assert forall t :: t in transactions <==> t in multiset(listed);
      }
      assert |transactions| == |listed| by {
        assert |multiset(transactions)| == |multiset(listed)|;
      }
      MirrorsHold(SpaceOf(remote, uid), transactions);
      MirrorsUnique(transactions, SpaceOf(remote, uid).records);
    }

    /** The branch of the handler for a first-ever user: the seeded document
        is written, then three groups are set locally. */
    method SeedDocument(u: User, failure: Option<LoadStep>)
      requires user == Some(u) && failure != Some(ReadStep) && SpaceOf(remote, u.uid).doc.None?
      modifies this`loading, this`remote, this`userData, this`categories, this`cards
      ensures LocalGroups() == GroupsAfterSignIn(old(LocalGroups()), old(SpaceOf(remote, u.uid)), u, failure)
      ensures remote == StoreAfterSignIn(old(remote), u, failure)
      ensures loading == (old(loading) && !LoadCompletes(old(SpaceOf(remote, u.uid)), failure))
      ensures SpaceOf(remote, u.uid).records == old(SpaceOf(remote, u.uid)).records
    {
      if failure == Some(SeedStep) {
        return;
      }
      var sp := SpaceOf(remote, u.uid);
      remote := PutSpace(remote, u.uid, sp.(doc := Some(SeedDoc(u))));
      userData, categories, cards := SessionUserData(u), DefaultCategories, DefaultCards;
      loading := false;
    }

    /** The authentication handler on sign-out: every group back to its
        default and no transactions; the store is not touched. */
    method SignOut()
      modifies this`user, this`loading, this`transactions
      modifies this`userData, this`categories, this`cards, this`wishlist, this`acquisitions, this`paidMonths
      ensures user.None? && !loading && transactions == []
      ensures LocalGroups() == SignedOutGroups
      ensures Valid()
    {
      SetGroups(SignedOutGroups);
      user, transactions, loading := None, [], false;
    }

    /** A view's setter for one group: only the local value changes. */
    method SetGroup(v: GroupValue)
      modifies this`userData, this`categories, this`cards, this`wishlist, this`acquisitions, this`paidMonths
      ensures LocalGroups() == Put(old(LocalGroups()), v)
      ensures old(Valid()) ==> Valid()
    {
      match v
      case UserDataValue(x) => userData := x;
      case CategoriesValue(x) => categories := x;
      case CardsValue(x) => cards := x;
      case WishlistValue(x) => wishlist := x;
      case AcquisitionsValue(x) => acquisitions := x;
      case PaidMonthsValue(x) => paidMonths := x;
    }

    /** The persistence effect of one group: while signed in, a merge-write
        of that group's current value into the profile document. A rejected
        write is not retried. */
    method Reflect(g: Group, ok: bool)
      modifies this`remote
      ensures remote == if user.Some? && ok
                        then PutSpace(old(remote), user.value.uid,
                                      MergeWrite(old(SpaceOf(remote, user.value.uid)), Get(LocalGroups(), g)))
                        else old(remote)
      ensures old(Valid()) ==> Valid()
    {
      if user.None? || !ok {
        return;
      }
      var uid := user.value.uid;
      remote := PutSpace(remote, uid, MergeWrite(SpaceOf(remote, uid), Get(LocalGroups(), g)));
    }

    /** Opens the reset confirmation. */
    method PromptReset()
      modifies this`resetModalOpen
      ensures resetModalOpen
    {
      resetModalOpen := true;
    }

    /** Overwrites the profile document with `{}` and reloads the page, which
        mounts the component afresh. The record collection is kept. */
    method ConfirmReset(ok: bool)
      modifies this
      ensures old(user).None? || !ok ==> Snapshot() == old(Snapshot())
      ensures old(user).Some? && ok ==>
                var uid := old(user).value.uid;
                && Snapshot() == InitialState(PutSpace(old(remote), uid, old(SpaceOf(remote, uid)).(doc := Some(EmptyDoc))))
                && SpaceOf(remote, uid).records == old(SpaceOf(remote, uid).records)
      ensures old(Valid()) ==> Valid()
    {
      if user.None? || !ok {
        return;
      }
      var uid := user.value.uid;
      Remount(PutSpace(remote, uid, SpaceOf(remote, uid).(doc := Some(EmptyDoc))));
    }

    /** The page reload: every field back to its initial value over `store`. */
    method Remount(store: Store)
      modifies this
      ensures Snapshot() == InitialState(store)
    {
      SetGroups(SignedOutGroups);
      user, loading, transactions := None, true, [];
      deleteModalOpen, pendingDelete, resetModalOpen := false, None, false;
      editModalOpen, editing := false, None;
      remote := store;
    }

    /** Creates the record, then puts it, with the id the store assigned, at
        the head of the local list. */
    method AddTransaction(draft: Entry, newId: RecordId, ok: bool)
      requires user.Some? ==> newId !in SpaceOf(remote, user.value.uid).records
      modifies this`remote, this`transactions
      ensures user.None? || !ok ==> remote == old(remote) && transactions == old(transactions)
      ensures user.Some? && ok ==>
                && remote == PutSpace(old(remote), user.value.uid, AddRecord(old(SpaceOf(remote, user.value.uid)), newId, draft))
                && transactions == [Transaction(newId, draft)] + old(transactions)
      ensures old(Valid()) ==> Valid()
    {
      if user.None? || !ok {
        return;
      }
      var uid := user.value.uid;
      if Valid() {
        AddKeepsCache(SpaceOf(remote, uid), transactions, newId, draft);
        AddKeepsUniqueIds(SpaceOf(remote, uid), transactions, newId, draft);
      }
      remote := PutSpace(remote, uid, AddRecord(SpaceOf(remote, uid), newId, draft));
      transactions := [Transaction(newId, draft)] + transactions;
    }

    /** Remembers what to delete and opens the confirmation. */
    method PromptDelete(target: DeleteTarget)
      modifies this`pendingDelete, this`deleteModalOpen
      ensures pendingDelete == Some(target) && deleteModalOpen
    {
      pendingDelete := Some(target);
      deleteModalOpen := true;
    }

    /** Closes the confirmation; the pending id stays. */
    method CancelDelete()
      modifies this`deleteModalOpen
      ensures !deleteModalOpen
    {
      deleteModalOpen := false;
    }

    /** Deletes what is pending. An acquisition is filtered out locally; a
        transaction is deleted remotely, then filtered out locally. Either
        way the pending id is cleared and the confirmation closed, but not
        when the remote delete rejects. */
    method ConfirmDelete(ok: bool)
      modifies this`acquisitions, this`remote, this`transactions, this`pendingDelete, this`deleteModalOpen
      ensures var p := old(pendingDelete);
              var acts := p.Some? && Truthy(p.value) && (p.value.AcquisitionTarget? || (user.Some? && ok));
              && acquisitions == (if acts && p.value.AcquisitionTarget? then WithoutAcquisition(old(acquisitions), p.value.num)
                                  else old(acquisitions))
              && remote == (if acts && p.value.RecordTarget?
                            then PutSpace(old(remote), user.value.uid, RemoveRecord(old(SpaceOf(remote, user.value.uid)), p.value.key))
                            else old(remote))
              && transactions == (if acts && p.value.RecordTarget? then WithoutTransaction(old(transactions), p.value.key)
                                  else old(transactions))
              && pendingDelete == (if acts then None else p)
              && deleteModalOpen == (if acts then false else old(deleteModalOpen))
      ensures old(Valid()) ==> Valid()
    {
      if pendingDelete.None? || !Truthy(pendingDelete.value) {
        return;
      }
      match pendingDelete.value {
        case AcquisitionTarget(num) =>
          acquisitions := WithoutAcquisition(acquisitions, num);
        case RecordTarget(key) =>
          if user.None? || !ok {
            return;
          }
          var uid := user.value.uid;
          if Valid() {
            DeleteKeepsCache(SpaceOf(remote, uid), transactions, key);
          }
          remote := PutSpace(remote, uid, RemoveRecord(SpaceOf(remote, uid), key));
          transactions := WithoutTransaction(transactions, key);
      }
      pendingDelete := None;
      deleteModalOpen := false;
    }

    /** Saves the edit form over the transaction being edited: the record's
        description, amount and date are updated remotely, then every local
        entry with that id is replaced by the edited copy. Updating a record
        that no longer exists is rejected by the store. */
    method SaveEdit(form: EditForm, ok: bool)
      modifies this`remote, this`transactions, this`editModalOpen, this`editing
      ensures var e := old(editing);
              var acts := e.Some? && user.Some? && ok && e.value.id in old(SpaceOf(remote, user.value.uid)).records;
              && remote == (if acts then PutSpace(old(remote), user.value.uid, UpdateRecord(old(SpaceOf(remote, user.value.uid)), e.value.id, form))
                            else old(remote))
              && transactions == (if acts then ApplyEdit(old(transactions), e.value.id, Transaction(e.value.id, Patch(e.value.entry, form)))
                                  else old(transactions))
              && editModalOpen == (if acts then false else old(editModalOpen))
              && editing == (if acts then None else e)
      ensures old(Valid()) && (old(editing).Some? ==> old(editing).value in old(transactions)) ==> Valid()
      ensures var e := old(editing);
              e.Some? && user.Some? && ok && e.value.id in old(SpaceOf(remote, user.value.uid)).records
              && old(Valid()) && e.value in old(transactions) ==>
                Summarize(transactions) == Exchange(Summarize(old(transactions)), e.value, Transaction(e.value.id, Patch(e.value.entry, form)))
    {
      if editing.None? || user.None? {
        return;
      }
      var e := editing.value;
      var uid := user.value.uid;
      var sp := SpaceOf(remote, uid);
      if !ok || e.id !in sp.records {
        return;
      }
      var edited := Transaction(e.id, Patch(e.entry, form));
      if Valid() && e in transactions {
        EditKeepsCache(sp, transactions, e, form);
        EditKeepsUniqueIds(transactions, e.id, edited);
        var i :| 0 <= i < |transactions| && transactions[i] == e;
        EditSummary(transactions, i, edited);
      }
      remote := PutSpace(remote, uid, UpdateRecord(sp, e.id, form));
      transactions := ApplyEdit(transactions, e.id, edited);
      editModalOpen := false;
      editing := None;
    }
  }
}
