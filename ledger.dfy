/** The ledger's entities, as the component holds them in memory, and the
    defaults it starts from and falls back to. */
module Ledger {
  import opened Wrappers

  /** Identifier the remote store assigns to a transaction record. */
  type RecordId = string

  /** Identifier of an authenticated user; the root key into the store. */
  type Uid = string

  /** A `type` string other than the three the summary knows. */
  type OtherTag = s: string | s != "ingreso" && s != "gasto" && s != "ahorro" witness ""

  /** The `type` field of a transaction: `"ingreso"`, `"gasto"`, `"ahorro"`,
      or, since records come back from the store untyped, any other string. */
  datatype TxType = Ingreso | Gasto | Ahorro | Other(tag: OtherTag)

  /** A transaction without its identifier (`Omit<Transaction, 'id'>`):
      what is drafted by the views, stored in a record and kept in the
      legacy inline array. Dates are day ordinals. */
  datatype Entry = Entry(
    kind: TxType,
    amount: int,
    category: string,
    date: int,
    card: Option<int>,
    description: Option<string>)

  /** A transaction as the local list holds it: the store id plus the fields. */
  datatype Transaction = Transaction(id: RecordId, entry: Entry)

  datatype UserData = UserData(name: string, phone: string, email: string, countryCode: string)

  datatype Categories = Categories(ingreso: seq<string>, gasto: seq<string>)

  datatype Card = Card(id: int, name: string, limit: int)

  /** Only the shape the ledger relies on: the remaining fields are opaque. */
  datatype WishlistItem = WishlistItem(details: string)

  /** Acquisitions carry a locally assigned numeric id, unlike transactions. */
  datatype Acquisition = Acquisition(id: int, details: string)

  /** Keyed by a card, year and month composite; the value says "paid". */
  type PaidMonths = map<string, bool>

  /** The signed-in user as the authentication provider reports it. */
  datatype User = User(uid: Uid, displayName: Option<string>, email: string)

  const DefaultCategories: Categories := Categories(
    ["Salario", "Ventas", "Freelance"],
    ["Alimentación", "Transporte", "Servicios", "Ocio", "Salud", "Educación", "Pago Tarjeta"])

  const DefaultCards: seq<Card> := [Card(1, "Visa Principal", 1000000), Card(2, "Mastercard", 500000)]

  /** The profile the component holds before sign-in and after sign-out. */
  const SignedOutUserData: UserData := UserData("Usuario", "", "", "+56")

  /** The profile derived from the signed-in user when the stored document
      has none: the display name unless it is missing or empty. The name is
      never empty, and the profile differs from the signed-out one only in
      the name and the email. */
  function SessionUserData(u: User): (r: UserData)
    ensures r.name != ""
    ensures r == SignedOutUserData.(name := r.name, email := u.email)
  {
    var name := if u.displayName.Some? && u.displayName.value != "" then u.displayName.value else "Usuario";
    UserData(name, "", u.email, "+56")
  }

  /** The six field groups that live in the user's profile document and are
      mirrored to it one by one. Transactions are not one of them. */
  datatype Group = UserDataGroup | CategoriesGroup | CardsGroup | WishlistGroup | AcquisitionsGroup | PaidMonthsGroup

  /** A value for exactly one group. */
  datatype GroupValue =
    | UserDataValue(userData: UserData)
    | CategoriesValue(categories: Categories)
    | CardsValue(cards: seq<Card>)
    | WishlistValue(wishlist: seq<WishlistItem>)
    | AcquisitionsValue(acquisitions: seq<Acquisition>)
    | PaidMonthsValue(paidMonths: PaidMonths)

  function GroupOf(v: GroupValue): Group {
    match v
    case UserDataValue(_) => UserDataGroup
    case CategoriesValue(_) => CategoriesGroup
    case CardsValue(_) => CardsGroup
    case WishlistValue(_) => WishlistGroup
    case AcquisitionsValue(_) => AcquisitionsGroup
    case PaidMonthsValue(_) => PaidMonthsGroup
  }

  /** The values of all six groups, as loaded into the component. */
  datatype Groups = Groups(
    userData: UserData,
    categories: Categories,
    cards: seq<Card>,
    wishlist: seq<WishlistItem>,
    acquisitions: seq<Acquisition>,
    paidMonths: PaidMonths)

  function Get(gs: Groups, g: Group): (r: GroupValue)
    ensures GroupOf(r) == g
  {
    match g
    case UserDataGroup => UserDataValue(gs.userData)
    case CategoriesGroup => CategoriesValue(gs.categories)
    case CardsGroup => CardsValue(gs.cards)
    case WishlistGroup => WishlistValue(gs.wishlist)
    case AcquisitionsGroup => AcquisitionsValue(gs.acquisitions)
    case PaidMonthsGroup => PaidMonthsValue(gs.paidMonths)
  }

  /** The groups with one of them replaced, as a state setter does. */
  function Put(gs: Groups, v: GroupValue): (r: Groups)
    ensures Get(r, GroupOf(v)) == v
    ensures forall g :: g != GroupOf(v) ==> Get(r, g) == Get(gs, g)
  {
    match v
    case UserDataValue(x) => gs.(userData := x)
    case CategoriesValue(x) => gs.(categories := x)
    case CardsValue(x) => gs.(cards := x)
    case WishlistValue(x) => gs.(wishlist := x)
    case AcquisitionsValue(x) => gs.(acquisitions := x)
    case PaidMonthsValue(x) => gs.(paidMonths := x)
  }

  /** What each group holds when the component mounts and after sign-out. */
  const SignedOutGroups: Groups := Groups(SignedOutUserData, DefaultCategories, DefaultCards, [], [], map[])

  /** What each group falls back to while `u` is signed in. */
  function SessionDefaults(u: User): Groups {
    Groups(SessionUserData(u), DefaultCategories, DefaultCards, [], [], map[])
  }
}
