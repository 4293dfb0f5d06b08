/** Registration and payment (backend/controllers/registrationController.js):
    the ordered admission checks, the pricing of merchandise with its in-place
    stock decrement, the pending/approved/rejected payment sub-state, the
    rules for issuing a QR payload and counting a registration, and
    cancellation. */
module Registrations {
  import opened Outcome
  import opened Schema
  import opened Db

  datatype RegError =
    | EventNotFound
    | NotOpen
    | DeadlinePassed
    | FullyBooked
    | OnlyForIiit
    | OnlyForNonIiit
    | AlreadyRegistered
    | NoItems
    | InvalidVariant
    | InsufficientStock(variant: VariantId)
    | ProofRequired
    | DuplicateTicket
    | RegistrationNotFound
    | AlreadyCancelled
    | NotYourEvent
    | AlreadyReviewed

  // ---------------------------------------------------------------------
  // Admission checks (register, in order; the first failure answers)
  // ---------------------------------------------------------------------

  predicate OpenForRegistration(e: Event) {
    e.status.Published? || e.status.Ongoing?
  }

  /** The eligibility rule: `iiit-only` admits only IIIT participants and
      `non-iiit-only` only the others. */
  predicate Eligible(e: Event, kind: ParticipantType) {
    && (e.eligibility.IiitOnly? ==> kind.Iiit?)
    && (e.eligibility.NonIiitOnly? ==> kind.NonIiit?)
  }

  /** The checks `register` makes before it looks at the request body, in
      their order: the error of the first that fails, or nothing. */
  function Admission(e: Event, kind: ParticipantType, regs: seq<Registration>, user: UserId,
                     eventId: EventId, now: Time): (r: Option<RegError>)
    ensures r == Some(NotOpen) <==> !OpenForRegistration(e)
    ensures r == Some(DeadlinePassed) <==> OpenForRegistration(e) && now > e.registrationDeadline
    ensures r == Some(FullyBooked) <==>
      OpenForRegistration(e) && now <= e.registrationDeadline && e.registrationCount >= e.registrationLimit
    ensures r == Some(OnlyForIiit) <==>
      && OpenForRegistration(e) && now <= e.registrationDeadline && e.registrationCount < e.registrationLimit
      && e.eligibility.IiitOnly? && !kind.Iiit?
    ensures r == Some(OnlyForNonIiit) <==>
      && OpenForRegistration(e) && now <= e.registrationDeadline && e.registrationCount < e.registrationLimit
      && e.eligibility.NonIiitOnly? && !kind.NonIiit?
    ensures r == Some(AlreadyRegistered) <==>
      && OpenForRegistration(e) && now <= e.registrationDeadline && e.registrationCount < e.registrationLimit
      && Eligible(e, kind) && HasLiveRegistration(regs, user, eventId)
    ensures r.None? <==>
      && OpenForRegistration(e) && now <= e.registrationDeadline && e.registrationCount < e.registrationLimit
      && Eligible(e, kind) && !HasLiveRegistration(regs, user, eventId)
  {
    if !OpenForRegistration(e) then Some(NotOpen)
    else if now > e.registrationDeadline then Some(DeadlinePassed)
    else if e.registrationCount >= e.registrationLimit then Some(FullyBooked)
    else if e.eligibility.IiitOnly? && !kind.Iiit? then Some(OnlyForIiit)
    else if e.eligibility.NonIiitOnly? && !kind.NonIiit? then Some(OnlyForNonIiit)
    else if HasLiveRegistration(regs, user, eventId) then Some(AlreadyRegistered)
    else None
  }

  /** Once a live registration of the user exists, a second one for the same
      event is refused, whatever else holds. */
  lemma SecondRegistrationRefused(e: Event, kind: ParticipantType, regs: seq<Registration>,
                                  reg: Registration, now: Time)
    requires !reg.status.Cancelled?
    ensures Admission(e, kind, regs + [reg], reg.user, reg.event, now).Some?
  {
    assert (regs + [reg])[|regs|] == reg;
  }

  // ---------------------------------------------------------------------
  // Merchandise pricing and stock
  // ---------------------------------------------------------------------

  /** `event.merchandiseItems.id(variantId)`: the position of the first variant
      with that id. */
  function FindVariant(items: seq<Variant>, id: VariantId): (r: Option<nat>)
    ensures r.Some? ==> r.value < |items| && items[r.value].id == id
    ensures r.Some? ==> forall k :: 0 <= k < r.value ==> items[k].id != id
    ensures r.None? <==> forall k :: 0 <= k < |items| ==> items[k].id != id
    decreases |items|
  {
    if items == [] then None
    else if items[0].id == id then Some(0)
    else match FindVariant(items[1..], id)
      case None => None
      case Some(k) => Some(k + 1)
  }

  /** `b` is `a` with possibly other stock levels: same variants, ids, prices. */
  ghost predicate SameCatalog(a: seq<Variant>, b: seq<Variant>) {
    |a| == |b| && forall k :: 0 <= k < |a| ==> b[k] == a[k].(stock := b[k].stock)
  }

  lemma {:induction false} FindSameCatalog(a: seq<Variant>, b: seq<Variant>, id: VariantId)
    requires SameCatalog(a, b)
    ensures FindVariant(b, id) == FindVariant(a, id)
    decreases |a|
  {
    if a != [] {
      assert b[0].id == a[0].id;
      FindSameCatalog(a[1..], b[1..], id);
    }
  }

  /** The price of the variant a purchase names, 0 for an unknown one. */
  function UnitPrice(items: seq<Variant>, id: VariantId): Money {
    match FindVariant(items, id)
    case None => 0
    case Some(k) => items[k].price
  }

  /** Reference total: the sum of unit price times quantity over the purchases. */
  function Total(items: seq<Variant>, ps: seq<Purchase>): Money
    decreases |ps|
  {
    if ps == [] then 0 else UnitPrice(items, ps[0].variantId) * ps[0].quantity + Total(items, ps[1..])
  }

  /** The quantity the purchases ask of variant position `j`. */
  function Demand(items: seq<Variant>, ps: seq<Purchase>, j: nat): int
    decreases |ps|
  {
    if ps == [] then 0
    else (if FindVariant(items, ps[0].variantId) == Some(j) then ps[0].quantity else 0) + Demand(items, ps[1..], j)
  }

  /** Some purchase names variant position `j`. */
  ghost predicate Touched(items: seq<Variant>, ps: seq<Purchase>, j: nat) {
    exists k :: 0 <= k < |ps| && FindVariant(items, ps[k].variantId) == Some(j)
  }

  /** Every purchase names a variant of the catalog. */
  ghost predicate AllKnown(items: seq<Variant>, ps: seq<Purchase>) {
    forall k :: 0 <= k < |ps| ==> FindVariant(items, ps[k].variantId).Some?
  }

  lemma {:induction false} SameCatalogFacts(a: seq<Variant>, b: seq<Variant>, ps: seq<Purchase>)
    requires SameCatalog(a, b)
    ensures Total(b, ps) == Total(a, ps)
    ensures forall j :: Demand(b, ps, j) == Demand(a, ps, j)
    ensures forall j :: Touched(b, ps, j) <==> Touched(a, ps, j)
    ensures AllKnown(b, ps) <==> AllKnown(a, ps)
    decreases |ps|
  {
    forall k | 0 <= k < |ps| ensures FindVariant(b, ps[k].variantId) == FindVariant(a, ps[k].variantId) {
      FindSameCatalog(a, b, ps[k].variantId);
    }
    if ps != [] {
      SameCatalogFacts(a, b, ps[1..]);
    }
  }

  /** `variant.stock -= quantity` on the variant at position `j`. */
  function TakeStock(items: seq<Variant>, j: nat, quantity: int): (r: seq<Variant>)
    requires j < |items|
  {
    items[j := items[j].(stock := items[j].stock - quantity)]
  }

  /** Taking stock changes the stock of that one variant and nothing else. */
  lemma TakeStockFacts(items: seq<Variant>, j: nat, quantity: int)
    requires j < |items|
    ensures var r := TakeStock(items, j, quantity);
      && SameCatalog(items, r)
      && r[j].stock == items[j].stock - quantity
      && forall k :: 0 <= k < |items| && k != j ==> r[k] == items[k]
  {
  }

  lemma SameCatalogTransitive(a: seq<Variant>, b: seq<Variant>, c: seq<Variant>)
    requires SameCatalog(a, b) && SameCatalog(b, c)
    ensures SameCatalog(a, c)
  {
    forall k | 0 <= k < |a| ensures c[k] == a[k].(stock := c[k].stock) {
      assert b[k] == a[k].(stock := b[k].stock);
    }
  }

  /** The result of pricing one purchase: the variants afterwards, the
      purchase as recorded and the amount it adds. */
  datatype Turn = Turn(items: seq<Variant>, purchase: Purchase, amount: Money)

  /** One turn of the pricing loop of `register`: look the variant up (an
      unknown one is an error) and, when `deduct` holds, need enough stock
      and take the quantity from it; record the variant's price and add price
      times quantity. */
  function PriceOne(items: seq<Variant>, p: Purchase, deduct: bool): (r: Result<Turn, RegError>)
    ensures r.Ok? && !deduct ==> r.value.items == items
  {
    match FindVariant(items, p.variantId)
    case None => Err(InvalidVariant)
    case Some(j) =>
      if deduct && items[j].stock < p.quantity then Err(InsufficientStock(p.variantId))
      else Ok(Turn(if deduct then TakeStock(items, j, p.quantity) else items,
                   p.(priceAtPurchase := Some(items[j].price)), items[j].price * p.quantity))
  }

  lemma PriceOneFacts(items: seq<Variant>, p: Purchase, deduct: bool)
    requires PriceOne(items, p, deduct).Ok?
    ensures var t := PriceOne(items, p, deduct).value;
      && FindVariant(items, p.variantId).Some?
      && SameCatalog(items, t.items)
      && (deduct ==> t.items == TakeStock(items, FindVariant(items, p.variantId).value, p.quantity))
      && t.purchase == p.(priceAtPurchase := Some(UnitPrice(items, p.variantId)))
      && t.amount == UnitPrice(items, p.variantId) * p.quantity
  {
    var j := FindVariant(items, p.variantId).value;
    TakeStockFacts(items, j, p.quantity);
  }

  datatype Priced = Priced(items: seq<Variant>, purchases: seq<Purchase>, total: Money)

  /** Where the pricing loop stands after one more turn. */
  function Advance(acc: Priced, t: Turn): Priced {
    Priced(t.items, acc.purchases + [t.purchase], acc.total + t.amount)
  }

  /** The pricing loop of `register` as a specification, from the point
      `acc` it has reached: the remaining purchases take their turns in order
      and the first failing turn stops it. */
  function PriceRest(acc: Priced, ps: seq<Purchase>, deduct: bool): (r: Result<Priced, RegError>)
    decreases |ps|
  {
    if ps == [] then Ok(acc)
    else match PriceOne(acc.items, ps[0], deduct)
      case Err(e) => Err(e)
      case Ok(t) => PriceRest(Advance(acc, t), ps[1..], deduct)
  }

  /** The whole pricing loop: from the event's variants, nothing recorded
      and a total of 0. */
  function PriceFrom(items: seq<Variant>, ps: seq<Purchase>, deduct: bool): Result<Priced, RegError> {
    PriceRest(Priced(items, [], 0), ps, deduct)
  }

  lemma RestStep(acc: Priced, ps: seq<Purchase>, deduct: bool)
    requires ps != [] && PriceRest(acc, ps, deduct).Ok?
    ensures PriceOne(acc.items, ps[0], deduct).Ok?
    ensures PriceRest(acc, ps, deduct)
         == PriceRest(Advance(acc, PriceOne(acc.items, ps[0], deduct).value), ps[1..], deduct)
  {
  }

  /** Pricing changes stock levels only, and without decrement nothing. */
  lemma {:induction false} RestCatalog(acc: Priced, ps: seq<Purchase>, deduct: bool)
    requires PriceRest(acc, ps, deduct).Ok?
    ensures SameCatalog(acc.items, PriceRest(acc, ps, deduct).value.items)
    ensures !deduct ==> PriceRest(acc, ps, deduct).value.items == acc.items
    decreases |ps|
  {
    if ps != [] {
      RestStep(acc, ps, deduct);
      var t := PriceOne(acc.items, ps[0], deduct).value;
      PriceOneFacts(acc.items, ps[0], deduct);
      RestCatalog(Advance(acc, t), ps[1..], deduct);
      SameCatalogTransitive(acc.items, t.items, PriceRest(acc, ps, deduct).value.items);
    }
  }

  /** Every purchase of a priced order names a known variant. */
  lemma {:induction false} RestAllKnown(acc: Priced, ps: seq<Purchase>, deduct: bool)
    requires PriceRest(acc, ps, deduct).Ok?
    ensures AllKnown(acc.items, ps)
    decreases |ps|
  {
    if ps != [] {
      RestStep(acc, ps, deduct);
      var t := PriceOne(acc.items, ps[0], deduct).value;
      PriceOneFacts(acc.items, ps[0], deduct);
      RestAllKnown(Advance(acc, t), ps[1..], deduct);
      SameCatalogFacts(acc.items, t.items, ps[1..]);
      forall k | 0 <= k < |ps| ensures FindVariant(acc.items, ps[k].variantId).Some? {
        if k > 0 { assert ps[k] == ps[1..][k - 1]; }
      }
    }
  }

  /** The loop adds the reference sum of price times quantity to its total. */
  lemma {:induction false} RestTotal(acc: Priced, ps: seq<Purchase>, deduct: bool)
    requires PriceRest(acc, ps, deduct).Ok?
    ensures PriceRest(acc, ps, deduct).value.total == acc.total + Total(acc.items, ps)
    decreases |ps|
  {
    if ps != [] {
      RestStep(acc, ps, deduct);
      var t := PriceOne(acc.items, ps[0], deduct).value;
      PriceOneFacts(acc.items, ps[0], deduct);
      RestTotal(Advance(acc, t), ps[1..], deduct);
      SameCatalogFacts(acc.items, t.items, ps[1..]);
    }
  }

  /** The purchases as the loop records them: each with its variant's price. */
  function Recorded(items: seq<Variant>, ps: seq<Purchase>): (r: seq<Purchase>)
    ensures |r| == |ps|
    decreases |ps|
  {
    if ps == [] then []
    else [ps[0].(priceAtPurchase := Some(UnitPrice(items, ps[0].variantId)))] + Recorded(items, ps[1..])
  }

  lemma {:induction false} RecordedAt(items: seq<Variant>, ps: seq<Purchase>)
    ensures forall k :: 0 <= k < |ps| ==>
      Recorded(items, ps)[k] == ps[k].(priceAtPurchase := Some(UnitPrice(items, ps[k].variantId)))
    decreases |ps|
  {
    if ps != [] {
      RecordedAt(items, ps[1..]);
      forall k | 0 <= k < |ps|
        ensures Recorded(items, ps)[k] == ps[k].(priceAtPurchase := Some(UnitPrice(items, ps[k].variantId)))
      {
        if k > 0 { assert ps[k] == ps[1..][k - 1]; }
      }
    }
  }

  lemma {:induction false} RecordedSameCatalog(a: seq<Variant>, b: seq<Variant>, ps: seq<Purchase>)
    requires SameCatalog(a, b)
    ensures Recorded(b, ps) == Recorded(a, ps)
    decreases |ps|
  {
    if ps != [] {
      FindSameCatalog(a, b, ps[0].variantId);
      RecordedSameCatalog(a, b, ps[1..]);
    }
  }

  /** The loop appends each purchase, in order, with its variant's price. */
  lemma {:induction false} RestPurchases(acc: Priced, ps: seq<Purchase>, deduct: bool)
    requires PriceRest(acc, ps, deduct).Ok?
    ensures PriceRest(acc, ps, deduct).value.purchases == acc.purchases + Recorded(acc.items, ps)
    decreases |ps|
  {
    if ps == [] {
      assert acc.purchases + [] == acc.purchases;
    } else {
      RestStep(acc, ps, deduct);
      var t := PriceOne(acc.items, ps[0], deduct).value;
      PriceOneFacts(acc.items, ps[0], deduct);
      RestPurchases(Advance(acc, t), ps[1..], deduct);
      RecordedSameCatalog(acc.items, t.items, ps[1..]);
      assert (acc.purchases + [t.purchase]) + Recorded(acc.items, ps[1..])
          == acc.purchases + ([t.purchase] + Recorded(acc.items, ps[1..]));
    }
  }

  /** A variant named by a later purchase is named by the order. */
  lemma TouchedLater(items: seq<Variant>, ps: seq<Purchase>, j: nat)
    requires ps != [] && Touched(items, ps[1..], j)
    ensures Touched(items, ps, j)
  {
    var k :| 0 <= k < |ps[1..]| && FindVariant(items, ps[1..][k].variantId) == Some(j);
    assert ps[1..][k] == ps[k + 1];
  }

  /** A variant the order names is named by its first purchase or a later one. */
  lemma TouchedFirstOrLater(items: seq<Variant>, ps: seq<Purchase>, j: nat)
    requires Touched(items, ps, j)
    ensures FindVariant(items, ps[0].variantId) == Some(j) || Touched(items, ps[1..], j)
  {
    var k :| 0 <= k < |ps| && FindVariant(items, ps[k].variantId) == Some(j);
    if k > 0 {
      assert ps[1..][k - 1] == ps[k];
    }
  }

  /** With stock decrement, variant `j` loses exactly what the purchases ask
      of it, keeps its stock if no purchase names it, and never ends below
      zero if one does: there is no overselling. */
  lemma {:induction false} RestStockAt(acc: Priced, ps: seq<Purchase>, j: nat)
    requires PriceRest(acc, ps, true).Ok? && j < |acc.items|
    ensures var after := PriceRest(acc, ps, true).value.items;
      && j < |after|
      && after[j].stock == acc.items[j].stock - Demand(acc.items, ps, j)
      && (Touched(acc.items, ps, j) ==> after[j].stock >= 0)
      && (!Touched(acc.items, ps, j) ==> after[j] == acc.items[j])
    decreases |ps|
  {
    var items := acc.items;
    RestCatalog(acc, ps, true);
    if ps != [] {
      RestStep(acc, ps, true);
      var t := PriceOne(items, ps[0], true).value;
      PriceOneFacts(items, ps[0], true);
      var j0 := FindVariant(items, ps[0].variantId).value;
      TakeStockFacts(items, j0, ps[0].quantity);
      RestStockAt(Advance(acc, t), ps[1..], j);
      SameCatalogFacts(items, t.items, ps[1..]);
      if Touched(items, ps, j) {
        TouchedFirstOrLater(items, ps, j);
      }
      if Touched(items, ps[1..], j) {
        TouchedLater(items, ps, j);
      }
      if j == j0 {
        assert Touched(items, ps, j);
      }
    }
  }

  /** Without stock decrement, pricing fails exactly when some purchase names
      an unknown variant. */
  lemma {:induction false} PricingWithoutStock(acc: Priced, ps: seq<Purchase>)
    ensures PriceRest(acc, ps, false).Ok? <==> AllKnown(acc.items, ps)
    decreases |ps|
  {
    if ps != [] {
      var rest := ps[1..];
      assert forall k :: 0 <= k < |rest| ==> rest[k] == ps[k + 1];
      var first := PriceOne(acc.items, ps[0], false);
      if first.Ok? {
        PricingWithoutStock(Advance(acc, first.value), rest);
        if AllKnown(acc.items, rest) {
          forall k | 0 <= k < |ps| ensures FindVariant(acc.items, ps[k].variantId).Some? {
            if k > 0 { assert ps[k] == rest[k - 1]; }
          }
        }
      } else {
        assert FindVariant(acc.items, ps[0].variantId).None?;
      }
    }
  }

  /** Demand of non-negative quantities is non-negative. */
  lemma {:induction false} DemandNonNegative(items: seq<Variant>, ps: seq<Purchase>, j: nat)
    requires forall k :: 0 <= k < |ps| ==> ps[k].quantity >= 0
    ensures Demand(items, ps, j) >= 0
    decreases |ps|
  {
    if ps != [] {
      assert forall k :: 0 <= k < |ps[1..]| ==> ps[1..][k] == ps[k + 1];
      DemandNonNegative(items, ps[1..], j);
    }
  }

  /** All purchases are known exactly when the first one and the rest are. */
  lemma AllKnownTail(items: seq<Variant>, ps: seq<Purchase>)
    requires ps != []
    ensures AllKnown(items, ps) <==> FindVariant(items, ps[0].variantId).Some? && AllKnown(items, ps[1..])
  {
    var rest := ps[1..];
    if FindVariant(items, ps[0].variantId).Some? && AllKnown(items, rest) {
      forall k | 0 <= k < |ps| ensures FindVariant(items, ps[k].variantId).Some? {
        if k > 0 { assert ps[k] == rest[k - 1]; }
      }
    }
    if AllKnown(items, ps) {
      forall k | 0 <= k < |rest| ensures FindVariant(items, rest[k].variantId).Some? {
        assert rest[k] == ps[k + 1];
      }
    }
  }

  /** After the first purchase of variant `j0` took its quantity, the stock
      left covers the remaining demand exactly when the original stock
      covered the whole demand. */
  lemma StockCoversAfterTurn(items: seq<Variant>, ps: seq<Purchase>, j0: nat)
    requires ps != [] && FindVariant(items, ps[0].variantId) == Some(j0)
    ensures var next := TakeStock(items, j0, ps[0].quantity);
      (forall j :: 0 <= j < |items| ==> items[j].stock >= Demand(items, ps, j))
      <==> (forall j :: 0 <= j < |next| ==> next[j].stock >= Demand(next, ps[1..], j))
  {
    var next := TakeStock(items, j0, ps[0].quantity);
    TakeStockFacts(items, j0, ps[0].quantity);
    SameCatalogFacts(items, next, ps[1..]);
    forall j | 0 <= j < |items|
      ensures items[j].stock >= Demand(items, ps, j) <==> next[j].stock >= Demand(next, ps[1..], j)
    {
      assert Demand(items, ps, j) == (if j == j0 then ps[0].quantity else 0) + Demand(items, ps[1..], j);
    }
  }

  /** For non-negative quantities and stock levels, immediate purchase
      succeeds exactly when every variant is known and holds at least the
      total quantity asked of it, whatever the order of the purchases. */
  lemma {:induction false} PurchaseSucceedsIffStockSuffices(acc: Priced, ps: seq<Purchase>)
    requires forall k :: 0 <= k < |ps| ==> ps[k].quantity >= 0
    requires forall j :: 0 <= j < |acc.items| ==> acc.items[j].stock >= 0
    ensures PriceRest(acc, ps, true).Ok? <==>
      AllKnown(acc.items, ps) && forall j :: 0 <= j < |acc.items| ==> acc.items[j].stock >= Demand(acc.items, ps, j)
    decreases |ps|
  {
    if ps != [] {
      var items := acc.items;
      var p := ps[0];
      var rest := ps[1..];
      AllKnownTail(items, ps);
      var found := FindVariant(items, p.variantId);
      if found.Some? {
        var j0 := found.value;
        DemandNonNegative(items, rest, j0);
        assert Demand(items, ps, j0) == p.quantity + Demand(items, rest, j0);
        if items[j0].stock >= p.quantity {
          var t := PriceOne(items, p, true).value;
          TakeStockFacts(items, j0, p.quantity);
          SameCatalogFacts(items, t.items, rest);
          assert forall k :: 0 <= k < |rest| ==> rest[k] == ps[k + 1];
          PurchaseSucceedsIffStockSuffices(Advance(acc, t), rest);
          StockCoversAfterTurn(items, ps, j0);
        }
      }
    }
  }

  /** A priced order: every purchase named a known variant, is recorded in
      order with that variant's price, and the total is the reference sum. */
  lemma PricedOrder(items: seq<Variant>, ps: seq<Purchase>, deduct: bool)
    requires PriceFrom(items, ps, deduct).Ok?
    ensures var r := PriceFrom(items, ps, deduct).value;
      && AllKnown(items, ps)
      && r.total == Total(items, ps)
      && |r.purchases| == |ps|
      && (forall k :: 0 <= k < |ps| ==>
            r.purchases[k] == ps[k].(priceAtPurchase := Some(UnitPrice(items, ps[k].variantId))))
      && SameCatalog(items, r.items)
      && (!deduct ==> r.items == items)
  {
    var acc := Priced(items, [], 0);
    RestAllKnown(acc, ps, deduct);
    RestTotal(acc, ps, deduct);
    RestPurchases(acc, ps, deduct);
    assert [] + Recorded(items, ps) == Recorded(items, ps);
    RecordedAt(items, ps);
    RestCatalog(acc, ps, deduct);
  }

  /** Immediate purchase takes exactly the demand from each variant and
      never oversells. */
  lemma StockTaken(items: seq<Variant>, ps: seq<Purchase>)
    requires PriceFrom(items, ps, true).Ok?
    ensures var after := PriceFrom(items, ps, true).value.items;
      |after| == |items| &&
      forall j :: 0 <= j < |items| ==>
        && after[j].stock == items[j].stock - Demand(items, ps, j)
        && (Touched(items, ps, j) ==> after[j].stock >= 0)
        && (!Touched(items, ps, j) ==> after[j] == items[j])
  {
    forall j | 0 <= j < |items| {
      RestStockAt(Priced(items, [], 0), ps, j);
    }
    RestCatalog(Priced(items, [], 0), ps, true);
  }

  /** The pricing loop of `register`, over the variants in place: proved to
      compute `PriceFrom`. */
  method PriceMerchandise(items0: seq<Variant>, ps: seq<Purchase>, deduct: bool) returns (r: Result<Priced, RegError>)
    ensures r == PriceFrom(items0, ps, deduct)
  {
    var items := items0;
    var priced: seq<Purchase> := [];
    var total: Money := 0;
    var i := 0;
    assert ps[0..] == ps;
    while i < |ps|
      invariant 0 <= i <= |ps|
      invariant PriceFrom(items0, ps, deduct) == PriceRest(Priced(items, priced, total), ps[i..], deduct)
    {
      var p := ps[i];
      ghost var before := Priced(items, priced, total);
      assert ps[i..][0] == p && ps[i..][1..] == ps[i + 1..];
      var found := FindVariant(items, p.variantId);
      if found.None? {
        return Err(InvalidVariant);
      }
      var j := found.value;
      var price := items[j].price;
      if deduct {
        if items[j].stock < p.quantity {
          return Err(InsufficientStock(p.variantId));
        }
        items := TakeStock(items, j, p.quantity);
      }
      priced := priced + [p.(priceAtPurchase := Some(price))];
      total := total + price * p.quantity;
      assert Priced(items, priced, total) == Advance(before, PriceOne(before.items, p, deduct).value);
      i := i + 1;
    }
    assert ps[i..] == [];
    return Ok(Priced(items, priced, total));
  }

  // ---------------------------------------------------------------------
  // Stock decrement on approval (reviewPayment)
  // ---------------------------------------------------------------------

  /** The approval loop as a specification: like immediate purchase, except
      that a purchase whose variant no longer exists is skipped. */
  function DeductFrom(items: seq<Variant>, ps: seq<Purchase>): (r: Result<seq<Variant>, RegError>)
    decreases |ps|
  {
    if ps == [] then Ok(items)
    else
      var p := ps[0];
      match FindVariant(items, p.variantId)
      case None => DeductFrom(items, ps[1..])
      case Some(j) =>
        if items[j].stock < p.quantity then Err(InsufficientStock(p.variantId))
        else DeductFrom(TakeStock(items, j, p.quantity), ps[1..])
  }

  /** The purchases whose variant is in the catalog. */
  function Known(items: seq<Variant>, ps: seq<Purchase>): (r: seq<Purchase>)
    ensures |r| <= |ps|
    decreases |ps|
  {
    if ps == [] then []
    else if FindVariant(items, ps[0].variantId).Some? then [ps[0]] + Known(items, ps[1..])
    else Known(items, ps[1..])
  }

  lemma {:induction false} KnownSameCatalog(a: seq<Variant>, b: seq<Variant>, ps: seq<Purchase>)
    requires SameCatalog(a, b)
    ensures Known(b, ps) == Known(a, ps)
    decreases |ps|
  {
    if ps != [] {
      FindSameCatalog(a, b, ps[0].variantId);
      KnownSameCatalog(a, b, ps[1..]);
    }
  }

  function ItemsOf(r: Result<Priced, RegError>): Result<seq<Variant>, RegError> {
    match r
    case Err(e) => Err(e)
    case Ok(p) => Ok(p.items)
  }

  /** Approving a pending order takes from stock exactly what an immediate
      purchase of its still-known variants would take, and fails exactly when
      that purchase would, so the stock properties of immediate purchase (no
      overselling, stock taken equal to demand) carry over. */
  lemma {:induction false} ApprovalDeductsLikePurchase(acc: Priced, ps: seq<Purchase>)
    ensures DeductFrom(acc.items, ps) == ItemsOf(PriceRest(acc, Known(acc.items, ps), true))
    decreases |ps|
  {
    if ps != [] {
      var items := acc.items;
      var p := ps[0];
      var found := FindVariant(items, p.variantId);
      if found.None? {
        assert DeductFrom(items, ps) == DeductFrom(items, ps[1..]);
        assert Known(items, ps) == Known(items, ps[1..]);
        ApprovalDeductsLikePurchase(acc, ps[1..]);
      } else {
        var j := found.value;
        var known := Known(items, ps);
        assert known == [p] + Known(items, ps[1..]);
        assert known[0] == p && known[1..] == Known(items, ps[1..]);
        if items[j].stock >= p.quantity {
          var t := PriceOne(items, p, true).value;
          TakeStockFacts(items, j, p.quantity);
          assert DeductFrom(items, ps) == DeductFrom(t.items, ps[1..]);
          KnownSameCatalog(items, t.items, ps[1..]);
          ApprovalDeductsLikePurchase(Advance(acc, t), ps[1..]);
        }
      }
    }
  }

  /** The approval loop of `reviewPayment`, over the variants in place. */
  method DeductStock(items0: seq<Variant>, ps: seq<Purchase>) returns (r: Result<seq<Variant>, RegError>)
    ensures r == DeductFrom(items0, ps)
  {
    var items := items0;
    var i := 0;
    assert ps[0..] == ps;
    while i < |ps|
      invariant 0 <= i <= |ps|
      invariant DeductFrom(items0, ps) == DeductFrom(items, ps[i..])
    {
      var p := ps[i];
      assert ps[i..][0] == p && ps[i..][1..] == ps[i + 1..];
      var found := FindVariant(items, p.variantId);
      if found.Some? {
        var j := found.value;
        if items[j].stock < p.quantity {
          return Err(InsufficientStock(p.variantId));
        }
        items := TakeStock(items, j, p.quantity);
      }
      i := i + 1;
    }
    return Ok(items);
  }

  // ---------------------------------------------------------------------
  // Payment: what register charges and whether it waits for approval
  // ---------------------------------------------------------------------

  /** Registrations that wait for an organizer's approval: merchandise with
      payment approval, and normal events with a fee. */
  predicate NeedsApproval(e: Event) {
    || (e.eventType.Merchandise? && e.requiresPaymentApproval)
    || (e.eventType.Normal? && e.registrationFee > 0)
  }

  /** `/uploads/<filename>`. */
  function UploadPath(filename: string): string {
    "/uploads/" + filename
  }

  /** What `register` decided about the money before saving: the variants
      after any stock decrement, the purchases as recorded, the amount, the
      payment status and the proof. */
  datatype Charge = Charge(items: seq<Variant>, purchases: seq<Purchase>, total: Money,
                           payment: PayStatus, proofUrl: Option<string>)

  /** The body of `register` between the admission checks and the saving of
      the registration. `upload` is the name of the uploaded proof, if any. */
  function Checkout(e: Event, ps: seq<Purchase>, upload: Option<string>): (r: Result<Charge, RegError>)
    ensures e.eventType.Merchandise? && ps == [] ==> r == Err(NoItems)
    ensures NeedsApproval(e) && upload.None? ==> r.Err?
    ensures r.Ok? <==>
      && (e.eventType.Merchandise? ==> ps != [] && PriceFrom(e.merchandiseItems, ps, !e.requiresPaymentApproval).Ok?)
      && (NeedsApproval(e) ==> upload.Some?)
    ensures r.Ok? ==> (r.value.payment.Pending? <==> NeedsApproval(e))
    ensures r.Ok? ==> (r.value.payment.Pending? || r.value.payment.NotRequired?)
    ensures r.Ok? ==> (r.value.proofUrl.Some? <==> NeedsApproval(e))
    ensures r.Ok? && NeedsApproval(e) ==> r.value.proofUrl == Some(UploadPath(upload.value))
    ensures r.Ok? && e.eventType.Normal? && e.registrationFee > 0 ==> r.value.total == e.registrationFee
    ensures r.Ok? && !e.eventType.Merchandise? ==> r.value.items == e.merchandiseItems && r.value.purchases == ps
    ensures r.Ok? && !e.eventType.Merchandise? && !NeedsApproval(e) ==> r.value.total == 0
    ensures r.Ok? && e.eventType.Merchandise? ==>
      var priced := PriceFrom(e.merchandiseItems, ps, !e.requiresPaymentApproval);
      && priced.Ok?
      && r.value.items == priced.value.items
      && r.value.purchases == priced.value.purchases
      && r.value.total == priced.value.total
  {
    if e.eventType.Merchandise? then
      if ps == [] then Err(NoItems)
      else match PriceFrom(e.merchandiseItems, ps, !e.requiresPaymentApproval)
        case Err(err) => Err(err)
        case Ok(priced) =>
          if !e.requiresPaymentApproval then
            Ok(Charge(priced.items, priced.purchases, priced.total, NotRequired, None))
          else if upload.None? then Err(ProofRequired)
          else Ok(Charge(priced.items, priced.purchases, priced.total, PayStatus.Pending, Some(UploadPath(upload.value))))
    else if e.eventType.Normal? && e.registrationFee > 0 then
      if upload.None? then Err(ProofRequired)
      else Ok(Charge(e.merchandiseItems, ps, e.registrationFee, PayStatus.Pending, Some(UploadPath(upload.value))))
    else Ok(Charge(e.merchandiseItems, ps, 0, NotRequired, None))
  }

  /** A merchandise order that is charged is priced at the variants' prices,
      and an immediate one takes its quantities from stock without overselling. */
  lemma MerchandiseCharge(e: Event, ps: seq<Purchase>, upload: Option<string>)
    requires e.eventType.Merchandise? && Checkout(e, ps, upload).Ok?
    ensures var c := Checkout(e, ps, upload).value;
      && c.total == Total(e.merchandiseItems, ps)
      && AllKnown(e.merchandiseItems, ps)
      && |c.purchases| == |ps| && |c.items| == |e.merchandiseItems|
      && (forall k :: 0 <= k < |ps| ==>
            c.purchases[k] == ps[k].(priceAtPurchase := Some(UnitPrice(e.merchandiseItems, ps[k].variantId))))
      && (e.requiresPaymentApproval ==> c.items == e.merchandiseItems)
      && (!e.requiresPaymentApproval ==> forall j :: 0 <= j < |e.merchandiseItems| ==>
            && c.items[j].stock == e.merchandiseItems[j].stock - Demand(e.merchandiseItems, ps, j)
            && (Touched(e.merchandiseItems, ps, j) ==> c.items[j].stock >= 0)
            && (!Touched(e.merchandiseItems, ps, j) ==> c.items[j] == e.merchandiseItems[j]))
  {
    PricedOrder(e.merchandiseItems, ps, !e.requiresPaymentApproval);
    if !e.requiresPaymentApproval {
      StockTaken(e.merchandiseItems, ps);
    }
  }

  /** The event as `register` has saved it before the registration itself is
      written: the variants after any stock decrement, and the custom form of
      a normal event locked. */
  function Prepared(e: Event, c: Charge): Event {
    e.(merchandiseItems := c.items, formLocked := e.formLocked || e.eventType.Normal?)
  }

  /** The counters after a registration is saved: a registration that waits
      for payment approval is not counted and brings no revenue yet. */
  function Counted(e: Event, c: Charge): (r: Event)
    ensures r.registrationCount == e.registrationCount + (if c.payment.Pending? then 0 else 1)
    ensures r.revenue == e.revenue + (if c.payment.Pending? then 0 else c.total)
    ensures r == e.(registrationCount := r.registrationCount, revenue := r.revenue)
  {
    if c.payment.Pending? then e
    else e.(registrationCount := e.registrationCount + 1, revenue := e.revenue + c.total)
  }

  /** The new registration document. A QR payload is issued exactly when the
      payment is not pending, and `emailSent` records whether the ticket email
      went out, which only happens then. */
  function NewRegistration(id: RegistrationId, ticketBytes: Bytes6, user: UserId, eventId: EventId,
                           kind: EventType, responses: seq<FormResponse>, c: Charge, emailOk: bool): (r: Registration)
    ensures r.qrCode.Some? <==> !c.payment.Pending?
    ensures r.qrCode.Some? ==> r.qrCode.value == TicketQr(r.ticketId, eventId, user)
    ensures r.emailSent ==> !c.payment.Pending?
    ensures r.status == DefaultRegStatus && r.paymentStatus == c.payment && r.totalAmount == c.total
    ensures r.ticketId == TicketId(ticketBytes) && r.id == id && r.user == user && r.event == eventId
  {
    var ticket := TicketId(ticketBytes);
    Registration(id, ticket, user, eventId, kind, DefaultRegStatus, responses, c.purchases, c.total,
                 c.proofUrl, c.payment, None, None, None,
                 if c.payment.Pending? then None else Some(TicketQr(ticket, eventId, user)),
                 !c.payment.Pending? && emailOk)
  }

  // ---------------------------------------------------------------------
  // Handlers
  // ---------------------------------------------------------------------

  /** The body of `register` from the pricing to the payment decision, as
      the handler runs it. */
  method ChargeFor(e: Event, ps: seq<Purchase>, upload: Option<string>) returns (r: Result<Charge, RegError>)
    ensures r == Checkout(e, ps, upload)
  {
    var items := e.merchandiseItems;
    var recorded := ps;
    var total: Money := 0;
    var payment := NotRequired;
    var proofUrl: Option<string> := None;
    if e.eventType.Merchandise? {
      if ps == [] {
        return Err(NoItems);
      }
      var priced := PriceMerchandise(e.merchandiseItems, ps, !e.requiresPaymentApproval);
      if priced.Err? {
        return Err(priced.error);
      }
      items, recorded, total := priced.value.items, priced.value.purchases, priced.value.total;
      if e.requiresPaymentApproval {
        if upload.None? {
          return Err(ProofRequired);
        }
        proofUrl := Some(UploadPath(upload.value));
        payment := PayStatus.Pending;
      }
    }
    if e.eventType.Normal? && e.registrationFee > 0 {
      total := e.registrationFee;
      if upload.None? {
        return Err(ProofRequired);
      }
      proofUrl := Some(UploadPath(upload.value));
      payment := PayStatus.Pending;
    }
    return Ok(Charge(items, recorded, total, payment, proofUrl));
  }

  /** The saving tail of register, once the checks passed and the charge is
      known: save the event, then insert the registration, then count it. */
  method Enrol(st: Store, user: UserId, eventId: EventId, responses: seq<FormResponse>, c: Charge,
               ticketBytes: Bytes6, emailOk: bool)
    returns (r: Result<RegistrationId, RegError>)
    requires st.Valid() && eventId < |st.events|
    modifies st
    ensures st.Valid()
    ensures var e := old(st.events)[eventId];
      && (TicketTaken(old(st.registrations), TicketId(ticketBytes)) ==>
            && r == Err(DuplicateTicket)
            && st.State() == old(st.State()).(events := old(st.events)[eventId := Prepared(e, c)]))
      && (!TicketTaken(old(st.registrations), TicketId(ticketBytes)) ==>
            && r == Ok(|old(st.registrations)|)
            && st.State() == old(st.State()).(
                 events := old(st.events)[eventId := Counted(Prepared(e, c), c)],
                 registrations := old(st.registrations) +
                   [NewRegistration(r.value, ticketBytes, user, eventId, e.eventType, responses, c, emailOk)]))
  {
    var e := st.events[eventId];
    var saved := Prepared(e, c);
    st.SaveEvent(eventId, saved);
    if TicketTaken(st.registrations, TicketId(ticketBytes)) {
      return Err(DuplicateTicket);
    }
    var id := |st.registrations|;
    st.InsertRegistration(NewRegistration(id, ticketBytes, user, eventId, e.eventType, responses, c, emailOk));
    st.SaveEvent(eventId, Counted(saved, c));
    r := Ok(id);
  }

  /** register. `upload` is the uploaded proof's file name, `ticketBytes` the
      random draw for the ticket id, `emailOk` whether the ticket email was
      sent. The event is saved before the registration, so a ticket id that is
      already taken (the unique index refuses the registration) leaves the
      stock decrement and the form lock in place. */
  method Register(st: Store, user: UserId, eventId: EventId, responses: seq<FormResponse>,
                  ps: seq<Purchase>, upload: Option<string>, now: Time, ticketBytes: Bytes6, emailOk: bool)
    returns (r: Result<RegistrationId, RegError>)
    requires st.Valid() && user < |st.users|
    modifies st
    ensures st.Valid()
    ensures eventId >= |old(st.events)| ==> r == Err(EventNotFound) && st.State() == old(st.State())
    ensures eventId < |old(st.events)| ==>
      var e := old(st.events)[eventId];
      var gate := Admission(e, old(st.users)[user].kind, old(st.registrations), user, eventId, now);
      var charge := Checkout(e, ps, upload);
      && (gate.Some? ==> r == Err(gate.value) && st.State() == old(st.State()))
      && (gate.None? && charge.Err? ==> r == Err(charge.error) && st.State() == old(st.State()))
      && (gate.None? && charge.Ok? && TicketTaken(old(st.registrations), TicketId(ticketBytes)) ==>
            && r == Err(DuplicateTicket)
            && st.State() == old(st.State()).(events := old(st.events)[eventId := Prepared(e, charge.value)]))
      && (gate.None? && charge.Ok? && !TicketTaken(old(st.registrations), TicketId(ticketBytes)) ==>
            && r == Ok(|old(st.registrations)|)
            && st.State() == old(st.State()).(
                 events := old(st.events)[eventId := Counted(Prepared(e, charge.value), charge.value)],
                 registrations := old(st.registrations) +
                   [NewRegistration(r.value, ticketBytes, user, eventId, e.eventType, responses, charge.value, emailOk)]))
  {
    if eventId >= |st.events| {
      return Err(EventNotFound);
    }
    var e := st.events[eventId];
    var gate := Admission(e, st.users[user].kind, st.registrations, user, eventId, now);
    if gate.Some? {
      return Err(gate.value);
    }
    var charge := ChargeFor(e, ps, upload);
    if charge.Err? {
      return Err(charge.error);
    }
    r := Enrol(st, user, eventId, responses, charge.value, ticketBytes, emailOk);
  }

  /** cancelRegistration: the owner's registration becomes `cancelled` and the
      event's count drops by one, whatever the payment status; revenue is
      not touched. */
  method CancelRegistration(st: Store, user: UserId, regId: RegistrationId) returns (r: Result<(), RegError>)
    requires st.Valid()
    modifies st
    ensures st.Valid()
    ensures regId >= |old(st.registrations)| || old(st.registrations)[regId].user != user ==>
      r == Err(RegistrationNotFound) && st.State() == old(st.State())
    ensures regId < |old(st.registrations)| && old(st.registrations)[regId].user == user ==>
      var reg := old(st.registrations)[regId];
      var e := old(st.events)[reg.event];
      && (reg.status.Cancelled? ==> r == Err(AlreadyCancelled) && st.State() == old(st.State()))
      && (!reg.status.Cancelled? ==>
            && r == Ok(())
            && st.State() == old(st.State()).(
                 registrations := old(st.registrations)[regId := reg.(status := RegStatus.Cancelled)],
                 events := old(st.events)[reg.event := e.(registrationCount := e.registrationCount - 1)]))
  {
    if regId >= |st.registrations| || st.registrations[regId].user != user {
      return Err(RegistrationNotFound);
    }
    var reg := st.registrations[regId];
    if reg.status.Cancelled? {
      return Err(AlreadyCancelled);
    }
    st.SaveRegistration(regId, reg.(status := RegStatus.Cancelled));
    var e := st.events[reg.event];
    st.SaveEvent(reg.event, e.(registrationCount := e.registrationCount - 1));
    r := Ok(());
  }

  /** A pending registration after review by `org` at `now`. */
  function Reviewed(reg: Registration, approve: bool, org: OrganizerId, now: Time): (r: Registration)
    ensures r.paymentStatus == (if approve then PayStatus.Approved else PayStatus.Rejected)
    ensures r.qrCode == (if approve then Some(TicketQr(reg.ticketId, reg.event, reg.user)) else reg.qrCode)
    ensures r.paymentReviewedBy == Some(org) && r.paymentReviewedAt == Some(now)
    ensures r.(paymentStatus := reg.paymentStatus, qrCode := reg.qrCode, paymentReviewedBy := reg.paymentReviewedBy,
               paymentReviewedAt := reg.paymentReviewedAt) == reg
  {
    if approve then
      reg.(qrCode := Some(TicketQr(reg.ticketId, reg.event, reg.user)), paymentStatus := PayStatus.Approved,
           paymentReviewedBy := Some(org), paymentReviewedAt := Some(now))
    else
      reg.(paymentStatus := PayStatus.Rejected, paymentReviewedBy := Some(org), paymentReviewedAt := Some(now))
  }

  /** The event once an approved registration is counted: stock taken, one
      more registration and its amount added to the revenue. */
  function CountApproval(e: Event, items: seq<Variant>, amount: Money): (r: Event)
    ensures r.registrationCount == e.registrationCount + 1 && r.revenue == e.revenue + amount
    ensures r.merchandiseItems == items
    ensures r.(merchandiseItems := e.merchandiseItems, registrationCount := e.registrationCount,
               revenue := e.revenue) == e
  {
    e.(merchandiseItems := items, registrationCount := e.registrationCount + 1, revenue := e.revenue + amount)
  }

  /** The `approve` branch of reviewPayment on a pending registration of an
      event the reviewer owns: take the stock, then record the approval,
      issue the QR payload and count the registration with its amount. */
  method ApprovePayment(st: Store, org: OrganizerId, regId: RegistrationId, now: Time)
    returns (r: Result<Registration, RegError>)
    requires st.Valid() && regId < |st.registrations|
    modifies st
    ensures st.Valid()
    ensures var reg := old(st.registrations)[regId];
      var e := old(st.events)[reg.event];
      var taken := DeductFrom(e.merchandiseItems, reg.purchases);
      && (taken.Err? ==> r == Err(taken.error) && st.State() == old(st.State()))
      && (taken.Ok? ==>
            && r == Ok(Reviewed(reg, true, org, now))
            && st.State() == old(st.State()).(
                 registrations := old(st.registrations)[regId := r.value],
                 events := old(st.events)[reg.event := CountApproval(e, taken.value, reg.totalAmount)]))
  {
    var reg := st.registrations[regId];
    var e := st.events[reg.event];
    var taken := DeductStock(e.merchandiseItems, reg.purchases);
    if taken.Err? {
      return Err(taken.error);
    }
    var approved := Reviewed(reg, true, org, now);
    var counted := CountApproval(e, taken.value, reg.totalAmount);
    st.SaveRegistration(regId, approved);
    st.SaveEvent(reg.event, counted);
    r := Ok(approved);
  }

  /** reviewPayment by organizer `org`: only a pending payment of one of the
      organizer's events is reviewed. `approve` takes the stock (skipping
      variants that no longer exist), issues the QR payload and counts the
      registration; any other action rejects it and changes nothing else. */
  method ReviewPayment(st: Store, org: OrganizerId, regId: RegistrationId, action: string, now: Time)
    returns (r: Result<Registration, RegError>)
    requires st.Valid()
    modifies st
    ensures st.Valid()
    ensures regId >= |old(st.registrations)| ==> r == Err(RegistrationNotFound) && st.State() == old(st.State())
    ensures regId < |old(st.registrations)| ==>
      var reg := old(st.registrations)[regId];
      var e := old(st.events)[reg.event];
      && (!OwnsEvent(old(st.events), org, reg.event) ==> r == Err(NotYourEvent) && st.State() == old(st.State()))
      && (OwnsEvent(old(st.events), org, reg.event) && !reg.paymentStatus.Pending? ==>
            r == Err(AlreadyReviewed) && st.State() == old(st.State()))
      && (OwnsEvent(old(st.events), org, reg.event) && reg.paymentStatus.Pending? && action == "approve" ==>
            var taken := DeductFrom(e.merchandiseItems, reg.purchases);
            && (taken.Err? ==> r == Err(taken.error) && st.State() == old(st.State()))
            && (taken.Ok? ==>
                  && r == Ok(Reviewed(reg, true, org, now))
                  && st.State() == old(st.State()).(
                       registrations := old(st.registrations)[regId := r.value],
                       events := old(st.events)[reg.event := CountApproval(e, taken.value, reg.totalAmount)])))
      && (OwnsEvent(old(st.events), org, reg.event) && reg.paymentStatus.Pending? && action != "approve" ==>
            && r == Ok(Reviewed(reg, false, org, now))
            && st.State() == old(st.State()).(registrations := old(st.registrations)[regId := r.value]))
  {
    if regId >= |st.registrations| {
      return Err(RegistrationNotFound);
    }
    var reg := st.registrations[regId];
    if !OwnsEvent(st.events, org, reg.event) {
      return Err(NotYourEvent);
    }
    if !reg.paymentStatus.Pending? {
      return Err(AlreadyReviewed);
    }
    var e := st.events[reg.event];
    if action == "approve" {
      r := ApprovePayment(st, org, regId, now);
    } else {
      var rejected := Reviewed(reg, false, org, now);
      st.SaveRegistration(regId, rejected);
      r := Ok(rejected);
    }
  }
}
