/** The ledger store as values: one function per operation of `Service`,
    mapping the ledger before the call to the ledger after it and the value or
    error returned. The class `Wallet.Service` is proved to do exactly this. */
module Store {
  import opened Types
  import opened Scan

  datatype Ledger = Ledger(
    nextAccountID: int64,
    accounts: seq<Account>,
    payments: seq<Payment>,
    favorites: seq<Favorite>)

  /** The state after a call and what the call returned. */
  datatype Step<T> = Step(ledger: Ledger, result: Result<T>)

  /** A zero-valued `Service{}`. */
  const Empty: Ledger := Ledger(0, [], [], [])

  /** `account.Balance += amount` on the account at index `i`. */
  function Credit(accounts: seq<Account>, i: nat, amount: int64): seq<Account>
    requires i < |accounts|
  {
    accounts[i := accounts[i].(balance := Add64(accounts[i].balance, amount))]
  }

  /** A failure changes nothing; a success only appends the returned account. */
  function RegisterAccount(l: Ledger, phone: string): (s: Step<Account>)
    ensures s.result.Err? ==> s.ledger == l
    ensures s.result.Ok? ==> s.ledger.accounts == l.accounts + [s.result.value]
    ensures s.ledger.payments == l.payments && s.ledger.favorites == l.favorites
  {
    if Has(l.accounts, AccountPhone, phone) then Step(l, Err(PhoneRegistered))
    else
      var account := Account(Add64(l.nextAccountID, 1), phone, 0);
      Step(l.(nextAccountID := account.id, accounts := l.accounts + [account]), Ok(account))
  }

  /** A failure changes nothing; a success changes one balance and nothing else. */
  function Deposit(l: Ledger, accountID: int64, amount: int64): (s: Step<()>)
    ensures s.result.Err? ==> s.ledger == l
    ensures |s.ledger.accounts| == |l.accounts|
    ensures s.ledger.payments == l.payments && s.ledger.favorites == l.favorites && s.ledger.nextAccountID == l.nextAccountID
  {
    if amount <= 0 then Step(l, Err(AmountMustBePositive))
    else
      match LastIndex(l.accounts, AccountID, accountID)
      case None => Step(l, Err(AccountNotFound))
      case Some(i) => Step(l.(accounts := Credit(l.accounts, i, amount)), Ok(()))
  }

  /** `paymentID` stands for the `uuid.New()` the source draws. */
  function Pay(l: Ledger, accountID: int64, amount: int64, category: string, paymentID: string): (s: Step<Payment>)
    ensures s.result.Err? ==> s.ledger == l
    ensures s.result.Ok? ==> s.ledger.payments == l.payments + [s.result.value] && s.result.value.id == paymentID
    ensures |s.ledger.accounts| == |l.accounts|
    ensures s.ledger.favorites == l.favorites && s.ledger.nextAccountID == l.nextAccountID
  {
    if amount <= 0 then Step(l, Err(AmountMustBePositive))
    else
      match LastIndex(l.accounts, AccountID, accountID)
      case None => Step(l, Err(AccountNotFound))
      case Some(i) =>
        var account := l.accounts[i];
        if account.balance < amount then Step(l, Err(NotEnoughBalance))
        else
          var payment := Payment(paymentID, accountID, amount, category, StatusInProgress);
          Step(l.(accounts := l.accounts[i := account.(balance := account.balance - amount)],
                  payments := l.payments + [payment]),
               Ok(payment))
  }

  /** A failure changes nothing; a success leaves every collection its size. */
  function Reject(l: Ledger, paymentID: string): (s: Step<()>)
    ensures s.result.Err? ==> s.ledger == l
    ensures |s.ledger.accounts| == |l.accounts| && |s.ledger.payments| == |l.payments|
    ensures s.ledger.favorites == l.favorites && s.ledger.nextAccountID == l.nextAccountID
  {
    match FirstIndex(l.payments, PaymentID, paymentID)
    case None => Step(l, Err(PaymentNotFound))
    case Some(p) =>
      var payment := l.payments[p];
      match FirstIndex(l.accounts, AccountID, payment.accountID)
      case None => Step(l, Err(AccountNotFound))
      case Some(a) =>
        Step(l.(payments := l.payments[p := payment.(status := StatusFail)],
                accounts := Credit(l.accounts, a, payment.amount)),
             Ok(()))
  }

  /** A failure changes nothing; a success only appends the returned payment
      under the new ID and debits its account. */
  function Repeat(l: Ledger, paymentID: string, newID: string): (s: Step<Payment>)
    ensures s.result.Err? ==> s.ledger == l
    ensures s.result.Ok? ==> s.ledger.payments == l.payments + [s.result.value] && s.result.value.id == newID
    ensures |s.ledger.accounts| == |l.accounts| && s.ledger.favorites == l.favorites
  {
    match FirstIndex(l.payments, PaymentID, paymentID)
    case None => Step(l, Err(PaymentNotFound))
    case Some(p) =>
      var payment := l.payments[p];
      Pay(l, payment.accountID, payment.amount, payment.category, newID)
  }

  /** `favoriteID` stands for the `uuid.New()` the source draws. */
  function FavoritePayment(l: Ledger, paymentID: string, name: string, favoriteID: string): (s: Step<Favorite>)
    ensures s.result.Err? ==> s.ledger == l
    ensures s.result.Ok? ==> s.ledger == l.(favorites := l.favorites + [s.result.value]) && s.result.value.name == name
  {
    if Has(l.favorites, FavoriteName, name) then Step(l, Err(FavoriteRegistered))
    else
      match FirstIndex(l.payments, PaymentID, paymentID)
      case None => Step(l, Err(PaymentNotFound))
      case Some(p) =>
        var payment := l.payments[p];
        var favorite := Favorite(favoriteID, payment.accountID, name, payment.amount, payment.category);
        Step(l.(favorites := l.favorites + [favorite]), Ok(favorite))
  }

  /** A failure changes nothing; a success only appends the returned payment
      and debits its account. */
  function PayFromFavorite(l: Ledger, favoriteID: string, paymentID: string): (s: Step<Payment>)
    ensures s.result.Err? ==> s.ledger == l
    ensures s.result.Ok? ==> s.ledger.payments == l.payments + [s.result.value] && s.result.value.id == paymentID
    ensures |s.ledger.accounts| == |l.accounts| && s.ledger.favorites == l.favorites
  {
    match FirstIndex(l.favorites, FavoriteID, favoriteID)
    case None => Step(l, Err(FavoriteNotFound))
    case Some(f) =>
      var favorite := l.favorites[f];
      Pay(l, favorite.accountID, favorite.amount, favorite.category, paymentID)
  }

  function BelongsTo(accountID: int64): Payment -> bool
  {
    (p: Payment) => p.accountID == accountID
  }

  /** Only an unknown account fails; the history holds only the account's payments. */
  function ExportAccountHistory(l: Ledger, accountID: int64): (r: Result<seq<Payment>>)
    ensures r.Err? <==> !Has(l.accounts, AccountID, accountID)
    ensures r.Ok? ==> forall i :: 0 <= i < |r.value| ==> r.value[i].accountID == accountID
  {
    match FirstIndex(l.accounts, AccountID, accountID)
    case None => Err(AccountNotFound)
    case Some(a) => Ok(Filter(l.payments, BelongsTo(l.accounts[a].id)))
  }

  // ---------------------------------------------------------------------
  // Properties

  predicate NonNegativeBalances(accounts: seq<Account>)
  {
    forall i :: 0 <= i < |accounts| ==> accounts[i].balance >= 0
  }

  /** Registration fails exactly on a taken phone and then changes nothing;
      otherwise it appends one zero-balance account carrying the next ID. */
  lemma RegisterAccountOutcome(l: Ledger, phone: string)
    ensures var s := RegisterAccount(l, phone);
      && (s.result == Err(PhoneRegistered) <==> exists i :: 0 <= i < |l.accounts| && l.accounts[i].phone == phone)
      && (s.result.Ok? <==> !Has(l.accounts, AccountPhone, phone))
      && (s.result.Err? ==> s.ledger == l)
      && (s.result.Ok? ==>
            && s.result.value == Account(Add64(l.nextAccountID, 1), phone, 0)
            && s.ledger == l.(nextAccountID := s.result.value.id, accounts := l.accounts + [s.result.value]))
  {
  }

  /** Registering only ever keeps phones unique. */
  lemma RegisterKeepsPhonesUnique(l: Ledger, phone: string)
    requires Unique(l.accounts, AccountPhone)
    ensures Unique(RegisterAccount(l, phone).ledger.accounts, AccountPhone)
  {
  }

  /** A second registration of the same phone fails. */
  lemma RegisterTwiceFails(l: Ledger, phone: string)
    requires RegisterAccount(l, phone).result.Ok?
    ensures var l' := RegisterAccount(l, phone).ledger;
            RegisterAccount(l', phone) == Step(l', Err(PhoneRegistered))
  {
    var l' := RegisterAccount(l, phone).ledger;
    assert AccountPhone(l'.accounts[|l'.accounts| - 1]) == phone;
  }

  /** `i` is the last account with `accountID`: the one the deposit and
      payment scans settle on. */
  predicate IsLast(accounts: seq<Account>, i: nat, accountID: int64)
  {
    && i < |accounts| && accounts[i].id == accountID
    && forall j :: i < j < |accounts| ==> accounts[j].id != accountID
  }

  lemma LastIndexIsLast(accounts: seq<Account>, i: nat, accountID: int64)
    requires IsLast(accounts, i, accountID)
    ensures LastIndex(accounts, AccountID, accountID) == Some(i)
  {
    assert AccountID(accounts[i]) == accountID;
    var r := LastIndex(accounts, AccountID, accountID);
    assert r.Some?;
    assert !(r.value < i) && !(i < r.value);
  }

  /** Deposit checks the amount, then the account; both failures change nothing. */
  lemma DepositOutcome(l: Ledger, accountID: int64, amount: int64)
    ensures amount <= 0 ==> Deposit(l, accountID, amount) == Step(l, Err(AmountMustBePositive))
    ensures amount > 0 && !Has(l.accounts, AccountID, accountID) ==>
      Deposit(l, accountID, amount) == Step(l, Err(AccountNotFound))
  {
  }

  /** A positive deposit changes only the last account with that ID, by +amount. */
  lemma DepositCredits(l: Ledger, accountID: int64, amount: int64, i: nat)
    requires amount > 0 && IsLast(l.accounts, i, accountID)
    ensures Deposit(l, accountID, amount)
         == Step(l.(accounts := l.accounts[i := l.accounts[i].(balance := Add64(l.accounts[i].balance, amount))]), Ok(()))
  {
    LastIndexIsLast(l.accounts, i, accountID);
  }

  /** A deposit that does not overflow keeps balances non-negative. */
  lemma DepositKeepsBalancesNonNegative(l: Ledger, accountID: int64, amount: int64)
    requires NonNegativeBalances(l.accounts)
    requires forall i :: 0 <= i < |l.accounts| && l.accounts[i].id == accountID ==> l.accounts[i].balance + amount <= MaxInt64
    ensures NonNegativeBalances(Deposit(l, accountID, amount).ledger.accounts)
  {
  }

  /** Pay checks the amount, then the account; both failures change nothing. */
  lemma PayOutcome(l: Ledger, accountID: int64, amount: int64, category: string, paymentID: string)
    ensures amount <= 0 ==> Pay(l, accountID, amount, category, paymentID) == Step(l, Err(AmountMustBePositive))
    ensures amount > 0 && !Has(l.accounts, AccountID, accountID) ==>
      Pay(l, accountID, amount, category, paymentID) == Step(l, Err(AccountNotFound))
  {
  }

  /** Then the balance of the last account with that ID: too little changes
      nothing; enough debits it and appends one in-progress payment with the
      given fields. */
  lemma PayDebits(l: Ledger, accountID: int64, amount: int64, category: string, paymentID: string, i: nat)
    requires amount > 0 && IsLast(l.accounts, i, accountID)
    ensures var s := Pay(l, accountID, amount, category, paymentID);
      && (l.accounts[i].balance < amount ==> s == Step(l, Err(NotEnoughBalance)))
      && (l.accounts[i].balance >= amount ==>
            var payment := Payment(paymentID, accountID, amount, category, StatusInProgress);
            s == Step(l.(accounts := l.accounts[i := l.accounts[i].(balance := l.accounts[i].balance - amount)],
                         payments := l.payments + [payment]),
                      Ok(payment)))
  {
    LastIndexIsLast(l.accounts, i, accountID);
  }

  lemma PayKeepsBalancesNonNegative(l: Ledger, accountID: int64, amount: int64, category: string, paymentID: string)
    requires NonNegativeBalances(l.accounts)
    ensures NonNegativeBalances(Pay(l, accountID, amount, category, paymentID).ledger.accounts)
  {
  }

  /** Reject of an unknown payment fails and changes nothing. */
  lemma RejectUnknown(l: Ledger, paymentID: string)
    requires !Has(l.payments, PaymentID, paymentID)
    ensures Reject(l, paymentID) == Step(l, Err(PaymentNotFound))
  {
  }

  /** Reject of a known payment whose account exists marks the first payment
      with the ID failed and credits its amount (int64) to the first account
      with its account ID; nothing else changes. */
  lemma RejectRefunds(l: Ledger, paymentID: string, p: nat, a: nat)
    requires p < |l.payments| && l.payments[p].id == paymentID
    requires forall j :: 0 <= j < p ==> l.payments[j].id != paymentID
    requires a < |l.accounts| && l.accounts[a].id == l.payments[p].accountID
    requires forall j :: 0 <= j < a ==> l.accounts[j].id != l.payments[p].accountID
    ensures Reject(l, paymentID)
         == Step(l.(payments := l.payments[p := l.payments[p].(status := StatusFail)],
                    accounts := l.accounts[a := l.accounts[a].(balance := Add64(l.accounts[a].balance, l.payments[p].amount))]),
                 Ok(()))
  {
    assert FirstIndex(l.payments, PaymentID, paymentID) == Some(p);
    assert FirstIndex(l.accounts, AccountID, l.payments[p].accountID) == Some(a);
  }

  /** Reject of a known payment whose account is gone fails with
      AccountNotFound and changes nothing, the payment's status included. */
  lemma RejectOrphan(l: Ledger, paymentID: string, p: nat)
    requires p < |l.payments| && l.payments[p].id == paymentID
    requires forall j :: 0 <= j < p ==> l.payments[j].id != paymentID
    requires !Has(l.accounts, AccountID, l.payments[p].accountID)
    ensures Reject(l, paymentID) == Step(l, Err(AccountNotFound))
  {
    assert FirstIndex(l.payments, PaymentID, paymentID) == Some(p);
  }

  /** A successful Pay followed by Reject of that payment gives back the
      accounts as they were, and leaves the payment failed. */
  lemma PayThenRejectRestores(l: Ledger, accountID: int64, amount: int64, category: string, paymentID: string)
    requires Unique(l.accounts, AccountID)
    requires !Has(l.payments, PaymentID, paymentID)
    requires Pay(l, accountID, amount, category, paymentID).result.Ok?
    ensures var l1 := Pay(l, accountID, amount, category, paymentID).ledger;
            var s := Reject(l1, paymentID);
            && s.result == Ok(())
            && s.ledger.accounts == l.accounts
            && s.ledger.payments == l.payments + [Payment(paymentID, accountID, amount, category, StatusFail)]
  {
    assert amount > 0 && LastIndex(l.accounts, AccountID, accountID).Some?;
    var i := LastIndex(l.accounts, AccountID, accountID).value;
    var payment := Payment(paymentID, accountID, amount, category, StatusInProgress);
    var debited := l.(accounts := l.accounts[i := l.accounts[i].(balance := l.accounts[i].balance - amount)],
                      payments := l.payments + [payment]);
    assert amount <= l.accounts[i].balance && Pay(l, accountID, amount, category, paymentID).ledger == debited by {
      PayDebits(l, accountID, amount, category, paymentID, i);
    }
    assert forall j :: 0 <= j < i ==> l.accounts[j].id != accountID by {
      UniqueScansAgree(l.accounts, AccountID, accountID);
    }
    RejectUndoesDebit(l, i, payment);
  }

  /** Rejecting a payment that was just appended, after its amount was
      debited from the first account with its account ID, puts the balance
      back and leaves the payment recorded as failed. */
  lemma RejectUndoesDebit(l: Ledger, i: nat, payment: Payment)
    requires i < |l.accounts| && l.accounts[i].id == payment.accountID
    requires forall j :: 0 <= j < i ==> l.accounts[j].id != payment.accountID
    requires !Has(l.payments, PaymentID, payment.id)
    requires 0 < payment.amount <= l.accounts[i].balance
    ensures var debited := l.(accounts := l.accounts[i := l.accounts[i].(balance := l.accounts[i].balance - payment.amount)],
                              payments := l.payments + [payment]);
      Reject(debited, payment.id) == Step(l.(payments := l.payments + [payment.(status := StatusFail)]), Ok(()))
  {
    var b := l.accounts[i].balance;
    var accounts := l.accounts[i := l.accounts[i].(balance := b - payment.amount)];
    var payments := l.payments + [payment];
    var p := |l.payments|;
    assert forall j :: 0 <= j < p ==> payments[j].id != payment.id by {
      assert forall j :: 0 <= j < p ==> payments[j] == l.payments[j];
    }
    RejectRefunds(l.(accounts := accounts, payments := payments), payment.id, p, i);
    assert accounts[i := accounts[i].(balance := Add64(b - payment.amount, payment.amount))] == l.accounts by {
      assert Add64(b - payment.amount, payment.amount) == b;
    }
    assert payments[p := payments[p].(status := StatusFail)] == l.payments + [payment.(status := StatusFail)];
  }

  /** Reject has no status guard: rejecting the same payment again credits the
      amount a second time. */
  lemma RejectTwiceCreditsTwice(l: Ledger, paymentID: string)
    requires Reject(l, paymentID).result.Ok?
    ensures var l1 := Reject(l, paymentID).ledger;
            var p := FirstIndex(l.payments, PaymentID, paymentID).value;
            var a := FirstIndex(l.accounts, AccountID, l.payments[p].accountID).value;
            && Reject(l1, paymentID).result.Ok?
            && Reject(l1, paymentID).ledger.accounts[a].balance
               == Add64(Add64(l.accounts[a].balance, l.payments[p].amount), l.payments[p].amount)
  {
    var l1 := Reject(l, paymentID).ledger;
    var p := FirstIndex(l.payments, PaymentID, paymentID).value;
    var a := FirstIndex(l.accounts, AccountID, l.payments[p].accountID).value;
    assert l1.payments[p].id == paymentID && l1.payments[p].accountID == l.payments[p].accountID;
    assert forall j :: 0 <= j < p ==> l1.payments[j] == l.payments[j];
    assert FirstIndex(l1.payments, PaymentID, paymentID) == Some(p);
    assert forall j :: 0 <= j < |l1.accounts| ==> l1.accounts[j].id == l.accounts[j].id;
    assert FirstIndex(l1.accounts, AccountID, l.payments[p].accountID) == Some(a);
  }

  /** Repeat pays again with the original's account, amount and category: the new
      payment equals the original but for its fresh ID (and in-progress status). */
  lemma RepeatCopiesPayment(l: Ledger, paymentID: string, newID: string)
    requires Has(l.payments, PaymentID, paymentID)
    requires !Has(l.payments, PaymentID, newID)
    ensures var orig := l.payments[FirstIndex(l.payments, PaymentID, paymentID).value];
            var s := Repeat(l, paymentID, newID);
            && s == Pay(l, orig.accountID, orig.amount, orig.category, newID)
            && (s.result.Ok? ==> s.result.value == orig.(id := newID, status := StatusInProgress) && s.result.value.id != orig.id)
  {
  }

  /** Repeat of an unknown payment fails without paying. */
  lemma RepeatUnknown(l: Ledger, paymentID: string, newID: string)
    requires !Has(l.payments, PaymentID, paymentID)
    ensures Repeat(l, paymentID, newID) == Step(l, Err(PaymentNotFound))
  {
  }

  /** The name is checked before the payment is looked up; a success appends a
      snapshot of the payment's account, amount and category under the name. */
  lemma FavoritePaymentOutcome(l: Ledger, paymentID: string, name: string, favoriteID: string)
    ensures var s := FavoritePayment(l, paymentID, name, favoriteID);
      && (Has(l.favorites, FavoriteName, name) ==> s == Step(l, Err(FavoriteRegistered)))
      && (!Has(l.favorites, FavoriteName, name) && !Has(l.payments, PaymentID, paymentID) ==> s == Step(l, Err(PaymentNotFound)))
      && (s.result.Ok? <==> !Has(l.favorites, FavoriteName, name) && Has(l.payments, PaymentID, paymentID))
      && (s.result.Ok? ==>
            var p := l.payments[FirstIndex(l.payments, PaymentID, paymentID).value];
            && s.result.value == Favorite(favoriteID, p.accountID, name, p.amount, p.category)
            && s.ledger == l.(favorites := l.favorites + [s.result.value]))
  {
  }

  /** Favorites only ever added through FavoritePayment keep unique names. */
  lemma FavoritePaymentKeepsNamesUnique(l: Ledger, paymentID: string, name: string, favoriteID: string)
    requires Unique(l.favorites, FavoriteName)
    ensures Unique(FavoritePayment(l, paymentID, name, favoriteID).ledger.favorites, FavoriteName)
  {
  }

  /** PayFromFavorite is Pay with the favorite's stored fields. */
  lemma PayFromFavoriteDelegates(l: Ledger, favoriteID: string, paymentID: string)
    ensures var s := PayFromFavorite(l, favoriteID, paymentID);
      && (!Has(l.favorites, FavoriteID, favoriteID) ==> s == Step(l, Err(FavoriteNotFound)))
      && (Has(l.favorites, FavoriteID, favoriteID) ==>
            var f := l.favorites[FirstIndex(l.favorites, FavoriteID, favoriteID).value];
            && s == Pay(l, f.accountID, f.amount, f.category, paymentID)
            && (s.result.Ok? ==>
                  s.result.value == Payment(paymentID, f.accountID, f.amount, f.category, StatusInProgress)))
  {
  }

  /** The history of a known account is exactly its payments, in insertion order. */
  lemma ExportAccountHistoryOutcome(l: Ledger, accountID: int64)
    ensures var r := ExportAccountHistory(l, accountID);
      && (r.Err? <==> !Has(l.accounts, AccountID, accountID))
      && (r.Err? ==> r.error == AccountNotFound)
      && (r.Ok? ==>
            && r.value == Filter(l.payments, BelongsTo(accountID))
            && (forall i :: 0 <= i < |r.value| ==> r.value[i].accountID == accountID)
            && (forall p :: multiset(r.value)[p] == if p.accountID == accountID then multiset(l.payments)[p] else 0))
  {
    var r := ExportAccountHistory(l, accountID);
    FilterCounts(l.payments, BelongsTo(accountID));
    if r.Ok? {
      assert BelongsTo(l.accounts[FirstIndex(l.accounts, AccountID, accountID).value].id) == BelongsTo(accountID);
    }
  }
}
